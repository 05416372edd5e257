/** The abstract content of the database: entries (user key, sequence number, kind, value),
    their internal-key order, and the one specification of a read that every read path refines. */
module Lsm {
  import opened Wrappers

  /** A user key is represented by its position in the order of the user-supplied comparator:
      any countable total order embeds in the reals. `Comparator.RankEmbeds` proves the embedding
      for the built-in bytewise comparator. */
  type UserKey = real

  type Value = string

  datatype Kind = Deletion | Put

  datatype Key = Key(user: UserKey, sequence: nat, kind: Kind)

  datatype Entry = Entry(key: Key, value: Value)

  const MAX_SEQUENCE: nat := 0x100_0000_0000_0000 - 1

  /** The empty user key sorts first under every comparator that LevelDB ships. */
  const EMPTY_KEY: UserKey := 0.0

  /** The 64-bit tag is `sequence << 8 | type`; larger tags sort first. */
  function Tag(k: Key): nat {
    k.sequence * 256 + if k.kind.Put? then 1 else 0
  }

  /** Internal keys: user key increasing, then tag decreasing. */
  predicate Before(a: Key, b: Key) {
    a.user < b.user || (a.user == b.user && Tag(a) > Tag(b))
  }

  ghost predicate Sorted(s: seq<Entry>) {
    forall i, j :: 0 <= i < j < |s| ==> Before(s[i].key, s[j].key)
  }

  ghost function Elements(s: seq<Entry>): set<Entry> {
    set e | e in s
  }

  /** At most one entry per user key and sequence number. */
  ghost predicate Distinct(s: set<Entry>) {
    forall e, f :: e in s && f in s && e.key.user == f.key.user && e.key.sequence == f.key.sequence ==> e == f
  }

  ghost predicate Candidate(s: set<Entry>, user: UserKey, snap: nat, e: Entry) {
    e in s && e.key.user == user && e.key.sequence <= snap
  }

  /** `e` is the newest entry of `user` at or below the snapshot. */
  ghost predicate Newest(s: set<Entry>, user: UserKey, snap: nat, e: Entry) {
    Candidate(s, user, snap, e) &&
    forall f :: Candidate(s, user, snap, f) ==> f.key.sequence <= e.key.sequence
  }

  function Visible(e: Entry): Option<Value> {
    if e.key.kind.Put? then Some(e.value) else None
  }

  /** What a read of `user` at `snap` returns: the newest entry at or below the snapshot,
      unless that entry is a deletion. */
  ghost function Lookup(s: set<Entry>, user: UserKey, snap: nat): Option<Value> {
    if exists e :: Newest(s, user, snap, e) then
      var e :| Newest(s, user, snap, e); Visible(e)
    else None
  }

  lemma LookupNewest(s: set<Entry>, user: UserKey, snap: nat, e: Entry)
    requires Distinct(s) && Newest(s, user, snap, e)
    ensures Lookup(s, user, snap) == Visible(e)
  {
    assert forall f :: Newest(s, user, snap, f) ==> f == e;
  }

  lemma {:induction false} NewestExists(s: set<Entry>, user: UserKey, snap: nat, c: Entry)
    requires Candidate(s, user, snap, c)
    ensures exists e :: Newest(s, user, snap, e)
    decreases s
  {
    var rest := s - {c};
    if d :| Candidate(rest, user, snap, d) {
      NewestExists(rest, user, snap, d);
      var e :| Newest(rest, user, snap, e);
      var m := if e.key.sequence < c.key.sequence then c else e;
      forall f | Candidate(s, user, snap, f) ensures f.key.sequence <= m.key.sequence {
        if f != c { assert Candidate(rest, user, snap, f); }
      }
      assert Newest(s, user, snap, m);
    } else {
      forall f | Candidate(s, user, snap, f) ensures f == c {
        if f != c { assert Candidate(rest, user, snap, f); }
      }
      assert Newest(s, user, snap, c);
    }
  }

  /** A read looks only at the candidates: two contents with the same candidates answer alike. */
  lemma LookupByCandidates(s: set<Entry>, m: nat, t: set<Entry>, n: nat, user: UserKey)
    requires Distinct(s) && Distinct(t)
    requires forall e :: Candidate(s, user, m, e) <==> Candidate(t, user, n, e)
    ensures Lookup(s, user, m) == Lookup(t, user, n)
  {
    if c :| Candidate(s, user, m, c) {
      NewestExists(s, user, m, c);
      var e :| Newest(s, user, m, e);
      assert Newest(t, user, n, e);
      LookupNewest(s, user, m, e);
      LookupNewest(t, user, n, e);
    }
  }
}
