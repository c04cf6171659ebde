/** `generateId`: the same helper appears in the orders route, the register
    route and the database initialiser. It fills each `x` of a version-4 UUID
    template with a random hex digit and the `y` with one of 8, 9, a, b. The
    random digits are an input: one nibble per `x` or `y`, left to right. */
module Ids {
  import opened Base

  /** The 31 nibbles that one call of `generateId` draws. */
  type Draw = s: seq<Nibble> | |s| == HoleCount witness seq(31, _ => 0)

  const HoleCount := 31

  function Xs(n: nat): (r: string)
    ensures |r| == n && forall i :: 0 <= i < n ==> r[i] == 'x'
  {
    seq(n, _ => 'x')
  }

  /** `'xxxxxxxx-xxxx-4xxx-yxxx-xxxxxxxxxxxx'`, written by its runs. */
  const Template: string := Xs(8) + "-" + Xs(4) + "-4" + Xs(3) + "-y" + Xs(3) + "-" + Xs(12)

  lemma TemplateIsTheLiteral()
    ensures Template == "xxxxxxxx-xxxx-4xxx-yxxx-xxxxxxxxxxxx"
  {
  }

  /** The number of positions of `t` that the callback replaces. */
  function Holes(t: string): nat
  {
    if t == [] then 0 else (if t[0] == 'x' || t[0] == 'y' then 1 else 0) + Holes(t[1..])
  }

  predicate IsLowerHex(c: char)
  {
    '0' <= c <= '9' || 'a' <= c <= 'f'
  }

  /** `v.toString(16)` for a nibble. */
  function HexDigit(v: Nibble): (c: char)
    ensures IsLowerHex(c)
  {
    if v < 10 then ('0' as int + v) as char else ('a' as int + v - 10) as char
  }

  /** `r & 0x3 | 0x8`, the value written at the `y` position. */
  function VariantNibble(r: Nibble): (v: Nibble)
    ensures 8 <= v <= 11
  {
    ((r as bv8 & 0x3) | 0x8) as int
  }

  /** `t.replace(/[xy]/g, ...)`, consuming one nibble per replaced position. */
  function Fill(t: string, rs: seq<Nibble>): (r: string)
    requires Holes(t) <= |rs|
    ensures |r| == |t|
    ensures forall i :: 0 <= i < |t| && t[i] != 'x' && t[i] != 'y' ==> r[i] == t[i]
    ensures forall i :: 0 <= i < |t| && t[i] == 'x' ==> IsLowerHex(r[i])
    ensures forall i :: 0 <= i < |t| && t[i] == 'y' ==> r[i] in "89ab"
  {
    if t == [] then []
    else if t[0] == 'x' then [HexDigit(rs[0])] + Fill(t[1..], rs[1..])
    else if t[0] == 'y' then [HexDigit(VariantNibble(rs[0]))] + Fill(t[1..], rs[1..])
    else [t[0]] + Fill(t[1..], rs)
  }

  lemma {:induction false} HolesAppend(a: string, b: string)
    ensures Holes(a + b) == Holes(a) + Holes(b)
  {
    if a == [] {
      assert a + b == b;
    } else {
      assert (a + b)[1..] == a[1..] + b;
      HolesAppend(a[1..], b);
    }
  }

  lemma {:induction false} HolesXs(n: nat)
    ensures Holes(Xs(n)) == n
  {
    if n > 0 {
      assert Xs(n)[1..] == Xs(n - 1);
      HolesXs(n - 1);
    }
  }

  lemma TemplateHoles()
    ensures Holes(Template) == HoleCount
  {
    HolesXs(8); HolesXs(4); HolesXs(3); HolesXs(12);
    assert Holes("-") == 0 && Holes("-4") == 0 && Holes("-y") == 1;
    HolesAppend(Xs(8), "-");
    HolesAppend(Xs(8) + "-", Xs(4));
    HolesAppend(Xs(8) + "-" + Xs(4), "-4");
    HolesAppend(Xs(8) + "-" + Xs(4) + "-4", Xs(3));
    HolesAppend(Xs(8) + "-" + Xs(4) + "-4" + Xs(3), "-y");
    HolesAppend(Xs(8) + "-" + Xs(4) + "-4" + Xs(3) + "-y", Xs(3));
    HolesAppend(Xs(8) + "-" + Xs(4) + "-4" + Xs(3) + "-y" + Xs(3), "-");
    HolesAppend(Xs(8) + "-" + Xs(4) + "-4" + Xs(3) + "-y" + Xs(3) + "-", Xs(12));
  }

  function GenerateId(d: Draw): string
  {
    TemplateHoles();
    Fill(Template, d)
  }

  /** The textual shape of a version-4 UUID in lower case. */
  predicate IsUuidV4Shape(s: string)
  {
    && |s| == 36
    && s[8] == '-' && s[13] == '-' && s[18] == '-' && s[23] == '-'
    && s[14] == '4'
    && s[19] in "89ab"
    && forall i :: 0 <= i < 36 && i != 8 && i != 13 && i != 18 && i != 23 ==> IsLowerHex(s[i])
  }

  lemma GenerateIdShape(d: Draw)
    ensures IsUuidV4Shape(GenerateId(d))
  {
    var id := GenerateId(d);
    forall i | 0 <= i < 36 && i != 8 && i != 13 && i != 18 && i != 23
      ensures IsLowerHex(id[i])
    {
      if i == 14 {
        assert Template[14] == '4';
      } else if i == 19 {
        assert Template[19] == 'y';
      } else {
        assert Template[i] == 'x';
      }
    }
    assert Template[8] == '-' && Template[13] == '-' && Template[18] == '-' && Template[23] == '-';
    assert Template[19] == 'y';
  }
}
