/** Dropping repetitions with a "seen" map, as buildAllowedIPs and endpointConfigs do. */
module Dedup {

  /** xs without what is in seen or came before. */
  function Firsts(seen: set<string>, xs: seq<string>): seq<string>
    decreases |xs|
  {
    if xs == [] then []
    else if xs[0] in seen then Firsts(seen, xs[1..])
    else [xs[0]] + Firsts(seen + {xs[0]}, xs[1..])
  }

  /** Position of the first x. */
  function FirstAt(xs: seq<string>, x: string): (i: nat)
    ensures i <= |xs| && x !in xs[..i] && (i < |xs| ==> xs[i] == x)
  {
    if xs == [] || xs[0] == x then 0 else 1 + FirstAt(xs[1..], x)
  }

  lemma {:induction false} FirstsMembers(seen: set<string>, xs: seq<string>, x: string)
    ensures x in Firsts(seen, xs) <==> x in xs && x !in seen
    decreases |xs|
  {
    if xs != [] {
      if xs[0] in seen {
        FirstsMembers(seen, xs[1..], x);
      } else {
        FirstsMembers(seen + {xs[0]}, xs[1..], x);
      }
    }
  }

  lemma {:induction false} FirstsStepsOn(seen: set<string>, xs: seq<string>, i: nat, j: nat)
    requires i < j < |Firsts(seen, xs)|
    ensures FirstAt(xs, Firsts(seen, xs)[i]) < FirstAt(xs, Firsts(seen, xs)[j]) < |xs|
    decreases |xs|, 1
  {
    FirstsMembers(seen, xs, Firsts(seen, xs)[i]);
    if xs[0] in seen {
      FirstsMembers(seen, xs, Firsts(seen, xs)[j]);
      FirstsStepsOn(seen, xs[1..], i, j);
    } else {
      UnseenStepsOn(seen + {xs[0]}, xs, xs[1..], Firsts(seen + {xs[0]}, xs[1..]), i, j);
    }
  }

  lemma {:induction false} FirstAtRest(xs: seq<string>, x: string)
    requires xs != [] && x != xs[0]
    ensures FirstAt(xs, x) == 1 + FirstAt(xs[1..], x)
  {
  }

  /** rest: what is kept after xs[0], which is in seen. */
  lemma {:induction false} UnseenStepsOn(seen: set<string>, xs: seq<string>, tail: seq<string>, rest: seq<string>,
      i: nat, j: nat)
    requires xs != [] && xs[0] in seen && tail == xs[1..] && rest == Firsts(seen, tail) && i < j <= |rest|
    ensures (if i == 0 then 0 else FirstAt(xs, rest[i - 1])) < FirstAt(xs, rest[j - 1]) < |xs|
    decreases |xs|, 0
  {
    FirstsMembers(seen, tail, rest[j - 1]);
    FirstAtIn(tail, rest[j - 1]);
    FirstAtRest(xs, rest[j - 1]);
    if i > 0 {
      FirstsMembers(seen, tail, rest[i - 1]);
      FirstAtRest(xs, rest[i - 1]);
      FirstsStepsOn(seen, tail, i - 1, j - 1);
    }
  }

  lemma {:induction false} FirstAtIn(xs: seq<string>, x: string)
    requires x in xs
    ensures FirstAt(xs, x) < |xs|
  {
  }

  /** Every element not seen is kept once, in the order of first occurrence. */
  lemma {:induction false} FirstsAreDistinct(seen: set<string>, xs: seq<string>)
    ensures forall x :: x in Firsts(seen, xs) <==> x in xs && x !in seen
    ensures forall i, j :: 0 <= i < j < |Firsts(seen, xs)| ==>
                             FirstAt(xs, Firsts(seen, xs)[i]) < FirstAt(xs, Firsts(seen, xs)[j])
  {
    forall x ensures x in Firsts(seen, xs) <==> x in xs && x !in seen {
      FirstsMembers(seen, xs, x);
    }
    forall i, j | 0 <= i < j < |Firsts(seen, xs)|
      ensures FirstAt(xs, Firsts(seen, xs)[i]) < FirstAt(xs, Firsts(seen, xs)[j])
    {
      FirstsStepsOn(seen, xs, i, j);
    }
  }
}
