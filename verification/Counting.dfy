/** Sizes of finite sets, and how many threads of a pool hold something. */
module Counting {
  import opened Options

  lemma {:induction false} SubsetSize<T>(a: set<T>, b: set<T>)
    requires a <= b
    ensures |a| <= |b|
  {
    if a != {} {
      var x :| x in a;
      SubsetSize(a - {x}, b - {x});
    }
  }

  /** What the threads of a pool hold, one thing each at most. */
  function Held<T(==,!new)>(hands: seq<Option<T>>): (all: set<T>)
    ensures forall x :: x in all <==> Some(x) in hands
  {
    if hands == [] then {}
    else
      var rest, last := Held(hands[..|hands| - 1]), hands[|hands| - 1];
      assert hands == hands[..|hands| - 1] + [last];
      if last.Some? then rest + {last.value} else rest
  }

  /** With one empty hand among them, the threads hold fewer things than there are threads. */
  lemma {:induction false} HeldSize<T(!new)>(hands: seq<Option<T>>)
    ensures |Held(hands)| <= |hands|
    ensures None in hands ==> |Held(hands)| < |hands|
  {
    if hands != [] {
      var rest, last := hands[..|hands| - 1], hands[|hands| - 1];
      assert hands == rest + [last];
      HeldSize(rest);
    }
  }
}
