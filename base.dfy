/** Values shared by every module: optional values and the JavaScript
    truthiness rules the handlers rely on when they write `a || b`. */
module Base {

  datatype Option<+T> = None | Some(value: T)

  /** A JavaScript string that may be absent from a JSON body (undefined or
      null). It is truthy when present and non-empty. */
  predicate Truthy(s: Option<string>)
  {
    s.Some? && s.value != ""
  }

  /** `a || b` where `a` is an optional string. */
  function OrElse(a: Option<string>, b: string): string
  {
    if Truthy(a) then a.value else b
  }

  /** `a || b` where `a` is an optional string and `b` another optional one. */
  function OrElseOpt(a: Option<string>, b: Option<string>): Option<string>
  {
    if Truthy(a) then a else b
  }

  /** A JavaScript number that may be absent; amounts are integer cents, so
      the falsy numbers are 0 and "absent" (NaN is not representable). */
  predicate TruthyAmount(n: Option<int>)
  {
    n.Some? && n.value != 0
  }

  /** `a || b` on optional amounts. */
  function OrAmount(a: Option<int>, b: int): int
  {
    if TruthyAmount(a) then a.value else b
  }

  /** The first truthy candidate of a JavaScript `||` chain, else the default.
      An independent, list-shaped description of a fallback chain. */
  function FirstTruthy(candidates: seq<Option<string>>, default: string): (r: string)
    ensures r == default || exists i :: 0 <= i < |candidates| && Truthy(candidates[i]) && r == candidates[i].value
    ensures (forall i :: 0 <= i < |candidates| ==> !Truthy(candidates[i])) ==> r == default
    ensures forall i :: 0 <= i < |candidates| && Truthy(candidates[i]) && (forall j :: 0 <= j < i ==> !Truthy(candidates[j]))
                        ==> r == candidates[i].value
  {
    if candidates == [] then default
    else if Truthy(candidates[0]) then candidates[0].value
    else FirstTruthy(candidates[1..], default)
  }

  /** A two-link chain `a || b || d` is the first truthy of `[a, b]`. */
  lemma FirstTruthyPair(a: Option<string>, b: Option<string>, d: string)
    ensures FirstTruthy([a, b], d) == OrElse(a, OrElse(b, d))
  {
    assert [a, b][1..] == [b];
    assert [b][1..] == [];
  }

  /** A three-link chain `a || b || c || d` is the first truthy of `[a, b, c]`. */
  lemma FirstTruthyTriple(a: Option<string>, b: Option<string>, c: Option<string>, d: string)
    ensures FirstTruthy([a, b, c], d) == OrElse(a, OrElse(b, OrElse(c, d)))
  {
    assert [a, b, c][1..] == [b, c];
    FirstTruthyPair(b, c, d);
  }

  /** A value of `Math.random() * 16 | 0`. */
  type Nibble = x: int | 0 <= x < 16
}
