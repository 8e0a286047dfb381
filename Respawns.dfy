/**
 * The pending-respawn table of main.py: `pending_respawns` maps a key to the list
 * `[entity, pos, remaining seconds]` of an item waiting to reappear.
 */
module Respawns {
  import opened Grid

  datatype Respawn = Respawn(entity: char, pos: Pos, remaining: int)

  type Table = map<nat, Respawn>

  lemma {:induction false} MaxExists(s: set<nat>)
    requires s != {}
    ensures exists m :: m in s && forall j :: j in s ==> j <= m
    decreases |s|
  {
    var x :| x in s;
    var r := s - {x};
    if r == {} {
      forall j | j in s
        ensures j <= x
      {
        assert j == x || j in r;
      }
    } else {
      MaxExists(r);
      var m :| m in r && forall j :: j in r ==> j <= m;
      MaxOfRest(s, x, m);
    }
  }

  /** The larger of `x` and the maximum of the rest bounds the whole set. */
  lemma MaxOfRest(s: set<nat>, x: nat, m: nat)
    requires x in s && m in s - {x} && forall j :: j in s - {x} ==> j <= m
    ensures exists t :: t in s && forall j :: j in s ==> j <= t
  {
    var top := if x > m then x else m;
    forall j | j in s
      ensures j <= top
    {
      assert j == x || j in s - {x};
    }
    assert top in s;
  }

  /** Python `max` over a non-empty set of keys. */
  function MaxKey(s: set<nat>): (m: nat)
    requires s != {}
    ensures m in s && forall j :: j in s ==> j <= m
  {
    MaxExists(s);
    var m :| m in s && forall j :: j in s ==> j <= m;
    m
  }

  /**
   * `get_pending_respawn_key`: 0 for an empty table, otherwise one more than the
   * largest key, so the key is never already in use.
   */
  function NextKey(t: Table): (k: nat)
    ensures k !in t
    ensures |t| == 0 ==> k == 0
    ensures |t| > 0 ==> k > 0 && k - 1 in t
    ensures forall j :: j in t ==> j < k
  {
    if |t| > 0 then MaxKey(t.Keys) + 1 else 0
  }

  /** `prepare_regeneration_item` on the table: the entry under its fresh key. */
  function Prepare(t: Table, r: Respawn): Table
  {
    t[NextKey(t) := r]
  }

  /** A preparation adds exactly one entry, under a key no entry had, and keeps the others. */
  lemma PrepareAddsEntry(t: Table, r: Respawn)
    ensures NextKey(t) !in t
    ensures Prepare(t, r).Keys == t.Keys + {NextKey(t)} && Prepare(t, r)[NextKey(t)] == r
    ensures forall key :: key in t ==> Prepare(t, r)[key] == t[key]
  {
  }

  /** The next key after a preparation is the one after the key just used. */
  lemma NextKeyAfterPrepare(t: Table, r: Respawn)
    ensures NextKey(Prepare(t, r)) == NextKey(t) + 1
  {
    var t' := Prepare(t, r);
    var k := NextKey(t');
    assert NextKey(t) in t';
    assert k - 1 in t';
  }

  /** Deleting the entry with the largest key lets the next preparation reuse that key. */
  lemma DeletedMaxKeyIsReused(t: Table, r: Respawn)
    ensures NextKey(Prepare(t, r) - {NextKey(t)}) == NextKey(t)
  {
    var t' := Prepare(t, r) - {NextKey(t)};
    assert t' == t;
  }

  /** Several preparations in turn, as `load_pending_respawns` and `cleanup` do them. */
  function PrepareAll(t: Table, rs: seq<Respawn>): Table
    decreases |rs|
  {
    if rs == [] then t else PrepareAll(Prepare(t, rs[0]), rs[1..])
  }

  /** Preparing one more item after a batch. */
  lemma {:induction false} PrepareAllSnoc(t: Table, rs: seq<Respawn>, r: Respawn)
    ensures PrepareAll(t, rs + [r]) == Prepare(PrepareAll(t, rs), r)
    decreases |rs|
  {
    if rs != [] {
      assert (rs + [r])[1..] == rs[1..] + [r];
      PrepareAllSnoc(Prepare(t, rs[0]), rs[1..], r);
    } else {
      assert PrepareAll(Prepare(t, r), []) == Prepare(t, r);
    }
  }

  /** The preparations use the consecutive keys from `NextKey(t)` on and keep every earlier entry. */
  lemma {:induction false} PrepareAllKeys(t: Table, rs: seq<Respawn>)
    ensures forall k :: k in PrepareAll(t, rs) <==> k in t || NextKey(t) <= k < NextKey(t) + |rs|
    ensures forall k :: k in t ==> PrepareAll(t, rs)[k] == t[k]
    ensures NextKey(PrepareAll(t, rs)) == NextKey(t) + |rs|
    decreases |rs|
  {
    if rs != [] {
      NextKeyAfterPrepare(t, rs[0]);
      PrepareAllKeys(Prepare(t, rs[0]), rs[1..]);
    }
  }

  /** After a batch of preparations the next key has moved on by the batch's size. */
  lemma {:induction false} PrepareAllNextKey(t: Table, rs: seq<Respawn>)
    ensures NextKey(PrepareAll(t, rs)) == NextKey(t) + |rs|
    decreases |rs|
  {
    if rs != [] {
      NextKeyAfterPrepare(t, rs[0]);
      PrepareAllNextKey(Prepare(t, rs[0]), rs[1..]);
    }
  }

  /** The i-th prepared item sits under key `NextKey(t) + i`. */
  lemma {:induction false} PrepareAllValues(t: Table, rs: seq<Respawn>, i: nat)
    requires i < |rs|
    ensures NextKey(t) + i in PrepareAll(t, rs)
    ensures PrepareAll(t, rs)[NextKey(t) + i] == rs[i]
    decreases |rs|
  {
    var u := Prepare(t, rs[0]);
    assert PrepareAll(t, rs) == PrepareAll(u, rs[1..]);
    NextKeyAfterPrepare(t, rs[0]);
    if i == 0 {
      assert NextKey(t) in u && u[NextKey(t)] == rs[0];
      PrepareAllKeys(u, rs[1..]);
    } else {
      PrepareAllValues(u, rs[1..], i - 1);
      assert rs[1..][i - 1] == rs[i];
    }
  }

  /** The remaining times the countdown of `regenerate_item` stores: n, n-1, ..., 1. */
  function Countdown(n: nat): (c: seq<int>)
    ensures |c| == n
    ensures n > 0 ==> c[0] == n && c[n - 1] == 1
    ensures forall i :: 0 <= i < n - 1 ==> c[i + 1] == c[i] - 1
  {
    seq(n, i requires 0 <= i < n => n - i)
  }
}
