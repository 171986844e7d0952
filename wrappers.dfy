/** Optional values and the JavaScript truthiness rules the app leans on.

    A TypeScript `string | undefined | null` is an `Option<string>`: `None`
    stands for both `undefined` and `null`. The app writes its fallbacks with
    `||`, which keeps its left operand when that operand is truthy (for a
    string: defined and non-empty) and otherwise yields its right operand. */
module Wrappers {

  datatype Option<+T> = None | Some(value: T)

  datatype Result<+T, +E> = Success(value: T) | Failure(error: E)

  /** A `string | undefined | null` used as a condition. */
  predicate Truthy(s: Option<string>) {
    s.Some? && s.value != ""
  }

  /** The JavaScript expression `a || b` on optional strings. */
  function Or(a: Option<string>, b: Option<string>): (r: Option<string>)
    ensures Truthy(r) <==> Truthy(a) || Truthy(b)
    ensures Truthy(a) ==> r == a
    ensures !Truthy(a) ==> r == b
  {
    if Truthy(a) then a else b
  }

  /** `a || d` where the fallback `d` is a string literal, so the result is always defined. */
  function OrElse(a: Option<string>, d: string): (r: string)
    ensures d != "" ==> r != ""
    ensures Truthy(a) ==> r == a.value
  {
    if Truthy(a) then a.value else d
  }

  /** A fallback chain `c0 || c1 || ... || cn`. JavaScript's `||` groups to the
      left, but the two groupings always agree, so the chain is folded from the right. */
  function Chain(cands: seq<Option<string>>): Option<string>
    requires |cands| > 0
  {
    if |cands| == 1 then cands[0] else Or(cands[0], Chain(cands[1..]))
  }

  /** A chain yields its first truthy candidate. */
  lemma {:induction false} ChainPicksFirstTruthy(cands: seq<Option<string>>, i: nat)
    requires i < |cands| && Truthy(cands[i])
    requires forall j :: 0 <= j < i ==> !Truthy(cands[j])
    ensures Chain(cands) == cands[i]
  {
    if i > 0 {
      ChainPicksFirstTruthy(cands[1..], i - 1);
    }
  }

  /** When no candidate but possibly the last is truthy, a chain yields its last
      candidate (which may be `undefined` or the empty string). */
  lemma {:induction false} ChainFallsThrough(cands: seq<Option<string>>)
    requires |cands| > 0
    requires forall j :: 0 <= j < |cands| - 1 ==> !Truthy(cands[j])
    ensures Chain(cands) == cands[|cands| - 1]
  {
    if |cands| > 1 {
      ChainFallsThrough(cands[1..]);
    }
  }

  /** The chain is truthy exactly when one of its candidates is. */
  lemma {:induction false} ChainTruthy(cands: seq<Option<string>>)
    requires |cands| > 0
    ensures Truthy(Chain(cands)) <==> exists j :: 0 <= j < |cands| && Truthy(cands[j])
  {
    if |cands| > 1 {
      ChainTruthy(cands[1..]);
      if Truthy(cands[0]) {
      } else if Truthy(Chain(cands[1..])) {
        var j :| 0 <= j < |cands[1..]| && Truthy(cands[1..][j]);
        assert Truthy(cands[j + 1]);
      } else {
        forall j | 0 <= j < |cands| ensures !Truthy(cands[j]) {
          if j > 0 { assert cands[j] == cands[1..][j - 1]; }
        }
      }
    }
  }
}
