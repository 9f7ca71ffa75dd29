/** The bounded idempotency window, and the accepted-key history it stands for. */
module DedupSpec {
  import opened Domain

  const DEDUP_WINDOW: nat := 1000

  /** Per account, the most recent accepted client order ids, oldest first. */
  type Window = map<AccountId, seq<nat>>

  function Recent(w: Window, a: AccountId): seq<nat> {
    if a in w then w[a] else []
  }

  function LastN<T>(s: seq<T>, n: nat): seq<T> {
    if |s| <= n then s else s[|s| - n..]
  }

  function Record(w: Window, a: AccountId, key: nat): Window {
    w[a := LastN(Recent(w, a) + [key], DEDUP_WINDOW)]
  }

  /** The window after trying one key, and whether the key was accepted. */
  function Try(w: Window, a: AccountId, key: nat): (Window, bool) {
    if key in Recent(w, a) then (w, false) else (Record(w, a, key), true)
  }

  // ----- the unbounded history -----

  type Attempt = (AccountId, nat)

  /** `key` is one of the last thousand of `keys`. */
  ghost predicate AmongLastThousand(keys: seq<nat>, key: nat) {
    exists i :: 0 <= i < |keys| && i >= |keys| - 1000 && keys[i] == key
  }

  lemma LastNHas(keys: seq<nat>, key: nat)
    ensures key in LastN(keys, DEDUP_WINDOW) <==> AmongLastThousand(keys, key)
  {
    var last := LastN(keys, DEDUP_WINDOW);
    var skipped := |keys| - |last|;
    if key in last {
      var i :| 0 <= i < |last| && last[i] == key;
      assert keys[i + skipped] == key;
    }
    if AmongLastThousand(keys, key) {
      var i :| 0 <= i < |keys| && i >= |keys| - 1000 && keys[i] == key;
      assert last[i - skipped] == key;
    }
  }

  /** Every key of account `a` ever accepted: one is refused iff it is among the last 1000 accepted. */
  ghost function Accepted(attempts: seq<Attempt>, a: AccountId): seq<nat> {
    if attempts == [] then []
    else
      var before := Accepted(attempts[..|attempts| - 1], a);
      var last := attempts[|attempts| - 1];
      if last.0 == a && !AmongLastThousand(before, last.1) then before + [last.1] else before
  }

  function WindowAfter(attempts: seq<Attempt>): Window {
    if attempts == [] then map[]
    else
      var last := attempts[|attempts| - 1];
      Try(WindowAfter(attempts[..|attempts| - 1]), last.0, last.1).0
  }

  lemma LastNPush<T>(s: seq<T>, x: T, n: nat)
    requires n > 0
    ensures LastN(LastN(s, n) + [x], n) == LastN(s + [x], n)
  {
  }

  /** The bounded queues remember exactly the tail of the unbounded history. */
  lemma {:induction false} WindowIsTailOfHistory(attempts: seq<Attempt>, a: AccountId)
    ensures Recent(WindowAfter(attempts), a) == LastN(Accepted(attempts, a), DEDUP_WINDOW)
  {
    if attempts != [] {
      var init, last := attempts[..|attempts| - 1], attempts[|attempts| - 1];
      WindowIsTailOfHistory(init, a);
      WindowIsTailOfHistory(init, last.0);
      LastNHas(Accepted(init, a), last.1);
      LastNPush(Accepted(init, a), last.1, DEDUP_WINDOW);
    }
  }

  /** A key is accepted iff it is not among its account's last 1000 accepted keys. */
  lemma AcceptedIffNotRecent(attempts: seq<Attempt>, a: AccountId, key: nat)
    ensures Try(WindowAfter(attempts), a, key).1 <==> !AmongLastThousand(Accepted(attempts, a), key)
    ensures Accepted(attempts + [(a, key)], a) ==
            Accepted(attempts, a) + (if Try(WindowAfter(attempts), a, key).1 then [key] else [])
  {
    WindowIsTailOfHistory(attempts, a);
    LastNHas(Accepted(attempts, a), key);
    assert (attempts + [(a, key)])[..|attempts|] == attempts;
  }

  // ----- well-formed windows -----

  ghost predicate NoRepeats(s: seq<nat>) {
    forall i, j :: 0 <= i < j < |s| ==> s[i] != s[j]
  }

  ghost predicate WindowOk(w: Window) {
    forall a :: a in w ==> |w[a]| <= DEDUP_WINDOW && NoRepeats(w[a])
  }

  lemma TryKeepsWindow(w: Window, a: AccountId, key: nat)
    requires WindowOk(w)
    ensures WindowOk(Try(w, a, key).0)
  {
    if key !in Recent(w, a) {
      var s := Recent(w, a) + [key];
      assert NoRepeats(s);
      assert NoRepeats(LastN(s, DEDUP_WINDOW));
    }
  }
}

/** The set and queues the engine keeps. */
module Dedups {
  import opened Domain
  import opened DedupSpec

  class Dedup {
    var seen: set<(AccountId, nat)>
    var order: map<AccountId, seq<nat>>

    /** `seen` is the union of the queues; queues are short and repeat nothing. */
    ghost predicate Valid()
      reads this
    {
      && WindowOk(order)
      && (forall a: AccountId, k: nat :: (a, k) in seen <==> k in Recent(order, a))
    }

    constructor ()
      ensures Valid() && order == map[]
    {
      seen, order := {}, map[];
    }

    /** False if this key was already seen. */
    method Insert(account: AccountId, key: nat) returns (isNew: bool)
      requires Valid()
      modifies this
      ensures Valid()
      ensures var after := Try(old(order), account, key); order == after.0 && isNew == after.1
      ensures !isNew ==> seen == old(seen)
    {
      TryKeepsWindow(order, account, key);
      if (account, key) in seen {
        return false;
      }
      seen := seen + {(account, key)};
      var recent := (if account in order then order[account] else []) + [key];
      if |recent| > DEDUP_WINDOW {
        var evicted := recent[0];
        recent := recent[1..];
        seen := seen - {(account, evicted)};
        EvictedGone(Recent(old(order), account), key);
      }
      order := order[account := recent];
      isNew := true;
    }
  }

  /** Dropping the oldest of a repeat-free queue drops exactly that key. */
  lemma EvictedGone(s: seq<nat>, key: nat)
    requires NoRepeats(s) && key !in s && s != []
    ensures forall k :: k in (s + [key])[1..] <==> k in s + [key] && k != s[0]
  {
    var r := s + [key];
    forall k | k in r && k != s[0] ensures k in r[1..] {
      var i :| 0 <= i < |r| && r[i] == k;
      assert r[1..][i - 1] == k;
    }
  }
}
