/** Stream entries that may or may not parse. */
module Entries {
  import opened Domain

  /** What the entries that parse hold, in order; the others are skipped. */
  function Decoded<T>(entries: seq<Option<T>>): seq<T> {
    if entries == [] then []
    else
      var init, last := Decoded(entries[..|entries| - 1]), entries[|entries| - 1];
      if last.Some? then init + [last.value] else init
  }

  /** One past the last entry that parses. */
  function LastDecoded<T>(entries: seq<Option<T>>): Option<nat> {
    if entries == [] then None
    else if entries[|entries| - 1].Some? then Some(|entries|)
    else LastDecoded(entries[..|entries| - 1])
  }

  lemma {:induction false} DecodedConcat<T>(x: seq<Option<T>>, y: seq<Option<T>>)
    ensures Decoded(x + y) == Decoded(x) + Decoded(y)
  {
    if y == [] {
      assert x + y == x;
    } else {
      var y', last := y[..|y| - 1], y[|y| - 1];
      DecodedConcat(x, y');
      assert (x + y)[..|x + y| - 1] == x + y';
      if last.Some? {
        assert Decoded(x) + Decoded(y') + [last.value] == Decoded(x) + (Decoded(y') + [last.value]);
      }
    }
  }

  lemma DecodedPush<T>(entries: seq<Option<T>>, i: nat)
    requires i < |entries|
    ensures Decoded(entries[..i + 1]) ==
            if entries[i].Some? then Decoded(entries[..i]) + [entries[i].value] else Decoded(entries[..i])
  {
    assert entries[..i + 1][..i] == entries[..i];
  }

  lemma {:induction false} NothingDecodedAfter<T>(entries: seq<Option<T>>)
    ensures match LastDecoded(entries)
            case None => Decoded(entries) == [] && (forall i :: 0 <= i < |entries| ==> entries[i].None?)
            case Some(k) => 0 < k <= |entries| && Decoded(entries[k..]) == []
  {
    if entries != [] && entries[|entries| - 1].None? {
      var init := entries[..|entries| - 1];
      NothingDecodedAfter(init);
      if LastDecoded(init).Some? {
        var k := LastDecoded(init).value;
        assert entries[k..][..|entries| - 1 - k] == init[k..];
      }
    }
  }
}
