/**
 Uploading an encrypted key backup (`putKeyBackup`): who owns which blob when any call of
 the request may fail.  Uploads of one user run one at a time.  A call that reports a
 failure changed nothing, except that archiving is several calls and can stop half-way.
 */
module KeyBackup {

  type BlobId = nat

  /** The empty blob id. */
  const NO_BLOB: BlobId := 0

  /** How many superseded backups are kept. */
  const KEPT := 3

  /** The two sealed blobs of a backup, and how many messages its transcript claims. */
  datatype Backup = Backup(state: BlobId, transcript: BlobId, messages: int)

  datatype Live = Missing | Stored(backup: Backup)

  /** `versions` are the superseded backups on record, newest first; `next` is a fresh blob id. */
  datatype Vault = Vault(blobs: set<BlobId>, next: BlobId, live: Live, versions: seq<Backup>)

  /** How archiving went: insert the record, find those beyond the kept ones, remove them one by one. */
  datatype Archiving = Complete | NotInserted | NotPruned | PartlyPruned(removed: nat)

  /** Which calls fail; `stuck` are the blobs whose deletion fails. */
  datatype Faults = Faults(read: bool, tail: bool, putState: bool, putTranscript: bool, putRecord: bool,
                           archiving: Archiving, stuck: set<BlobId>)

  datatype Upload = Upload(hasTranscript: bool, messages: int, force: bool, tailHeld: nat, faults: Faults)

  datatype Status = NoContent | Conflict | Unavailable | InternalError

  /** One successful change to the blob store or the record store. */
  datatype Op = PutBlob | DeleteBlob(id: BlobId) | PutRecord(backup: Backup) | Archive(backup: Backup, how: Archiving)

  // ------------------------------------------------------------------ the stores

  function Newest(s: seq<Backup>): seq<Backup> {
    if |s| <= KEPT then s else s[..KEPT]
  }

  function Beyond(s: seq<Backup>): seq<Backup> {
    if |s| <= KEPT then [] else s[KEPT..]
  }

  /** The versions whose records archiving removed, out of those it found beyond the kept ones. */
  function Removed(all: seq<Backup>, how: Archiving): seq<Backup> {
    match how
    case Complete => Beyond(all)
    case PartlyPruned(n) => if n < |Beyond(all)| then Beyond(all)[..n] else Beyond(all)
    case _ => []
  }

  function Versions(v: Vault, b: Backup, how: Archiving): seq<Backup> {
    var all := [b] + v.versions;
    match how
    case Complete => Newest(all)
    case NotInserted => v.versions
    case NotPruned => all
    case PartlyPruned(n) => Newest(all) + if n < |Beyond(all)| then Beyond(all)[n..] else []
  }

  /** What archiving returns to its caller, failed or not. */
  function Pruned(v: Vault, b: Backup, how: Archiving): seq<Backup> {
    if how.NotInserted? || how.NotPruned? then [] else Beyond([b] + v.versions)
  }

  function Apply(v: Vault, op: Op): Vault {
    match op
    case PutBlob => v.(blobs := v.blobs + {v.next}, next := v.next + 1)
    case DeleteBlob(id) => v.(blobs := v.blobs - {id})
    case PutRecord(b) => v.(live := Stored(b))
    case Archive(b, how) => v.(versions := Versions(v, b, how))
  }

  function After(v: Vault, ops: seq<Op>): Vault
    decreases |ops|
  {
    if ops == [] then v else After(Apply(v, ops[0]), ops[1..])
  }

  // ------------------------------------------------------------- what a request does

  /** A best-effort deletion. */
  function Deletion(id: BlobId, stuck: set<BlobId>): seq<Op> {
    if id in stuck then [] else [DeleteBlob(id)]
  }

  function Unshared(id: BlobId, inUse: BlobId, stuck: set<BlobId>): seq<Op> {
    if id == NO_BLOB || id == inUse then [] else Deletion(id, stuck)
  }

  function VersionDeletions(p: Backup, b: Backup, stuck: set<BlobId>): seq<Op> {
    Unshared(p.state, b.state, stuck) + Unshared(p.transcript, b.transcript, stuck)
  }

  function Deletions(pruned: seq<Backup>, b: Backup, stuck: set<BlobId>): seq<Op> {
    if pruned == [] then []
    else VersionDeletions(pruned[0], b, stuck) + Deletions(pruned[1..], b, stuck)
  }

  predicate Readable(v: Vault, u: Upload) {
    v.live.Stored? && !u.faults.read
  }

  /** The shrink guard. */
  predicate Shrinks(v: Vault, u: Upload) {
    Readable(v, u) && !u.force && u.messages < v.live.backup.messages + u.tailHeld
  }

  function NewBackup(v: Vault, u: Upload): Backup {
    if u.hasTranscript then Backup(v.next, v.next + 1, u.messages) else Backup(v.next, NO_BLOB, 0)
  }

  function Puts(u: Upload): seq<Op> {
    if u.hasTranscript then [PutBlob] + [PutBlob] else [PutBlob]
  }

  function Superseding(v: Vault, u: Upload): seq<Op> {
    if !Readable(v, u) then []
    else
      var how := u.faults.archiving;
      [Archive(v.live.backup, how)] + Deletions(Pruned(v, v.live.backup, how), NewBackup(v, u), u.faults.stuck)
  }

  function Outcome(v: Vault, u: Upload): Status {
    if u.faults.tail then Unavailable
    else if Shrinks(v, u) then Conflict
    else if u.faults.putState || (u.hasTranscript && u.faults.putTranscript) || u.faults.putRecord then InternalError
    else NoContent
  }

  /** Dropping the new blobs when the record could not be written. */
  function Rollback(b: Backup, stuck: set<BlobId>): seq<Op> {
    Deletion(b.state, stuck) + if b.transcript != NO_BLOB then Deletion(b.transcript, stuck) else []
  }

  /** The changes a request makes, in order. */
  function Plan(v: Vault, u: Upload): seq<Op> {
    var f := u.faults;
    var b := NewBackup(v, u);
    match Outcome(v, u)
    case Unavailable => []
    case Conflict => []
    case InternalError =>
      if f.putState then []
      else if u.hasTranscript && f.putTranscript then [PutBlob] + Deletion(b.state, f.stuck)
      else Puts(u) + Rollback(b, f.stuck)
    case NoContent => Puts(u) + ([PutRecord(b)] + Superseding(v, u))
  }

  function Uploaded(v: Vault, u: Upload): Vault {
    After(v, Plan(v, u))
  }

  function Run(v: Vault, uploads: seq<Upload>): Vault {
    if uploads == [] then v
    else Uploaded(Run(v, uploads[..|uploads| - 1]), uploads[|uploads| - 1])
  }

  const EMPTY := Vault({}, 1, Missing, [])

  // ------------------------------------------------------------------ references

  function Refs(b: Backup): set<BlobId> {
    {b.state, b.transcript} - {NO_BLOB}
  }

  function RefsOf(s: seq<Backup>): set<BlobId> {
    if s == [] then {} else Refs(s[0]) + RefsOf(s[1..])
  }

  /** No two backups share a blob. */
  predicate Apart(s: seq<Backup>) {
    s == [] || (Refs(s[0]) !! RefsOf(s[1..]) && Apart(s[1..]))
  }

  function Records(v: Vault): seq<Backup> {
    if v.live.Stored? then [v.live.backup] + v.versions else v.versions
  }

  function LiveRefs(v: Vault): set<BlobId> {
    if v.live.Stored? then Refs(v.live.backup) else {}
  }

  /** The live record and the newest versions have their blobs. */
  predicate KeptIntact(v: Vault) {
    LiveRefs(v) + RefsOf(Newest(v.versions)) <= v.blobs
  }

  /** So has every version on record. */
  predicate AllIntact(v: Vault) {
    RefsOf(Records(v)) <= v.blobs
  }

  function Orphans(v: Vault): set<BlobId> {
    v.blobs - RefsOf(Records(v))
  }

  predicate Below(s: set<BlobId>, n: BlobId) {
    forall x :: x in s ==> 0 < x < n
  }

  predicate Inv(v: Vault) {
    && 0 < v.next && Below(v.blobs, v.next) && Below(RefsOf(Records(v)), v.next)
    && Apart(Records(v)) && KeptIntact(v)
  }

  lemma {:induction false} RefsOfConcat(s: seq<Backup>, t: seq<Backup>)
    ensures RefsOf(s + t) == RefsOf(s) + RefsOf(t)
    ensures Apart(s + t) <==> Apart(s) && Apart(t) && RefsOf(s) !! RefsOf(t)
  {
    if s == [] {
      assert s + t == t;
    } else {
      assert (s + t)[1..] == s[1..] + t;
      RefsOfConcat(s[1..], t);
    }
  }

  lemma NewestAndBeyond(s: seq<Backup>)
    ensures s == Newest(s) + Beyond(s)
    ensures RefsOf(s) == RefsOf(Newest(s)) + RefsOf(Beyond(s))
    ensures Apart(s) <==> Apart(Newest(s)) && Apart(Beyond(s)) && RefsOf(Newest(s)) !! RefsOf(Beyond(s))
  {
    assert s == Newest(s) + Beyond(s);
    RefsOfConcat(Newest(s), Beyond(s));
  }

  lemma Uncons(a: seq<Op>, b: seq<Op>)
    requires a != []
    ensures a + b != [] && (a + b)[0] == a[0] && (a + b)[1..] == a[1..] + b
  {
  }

  lemma {:induction false} AfterConcat(v: Vault, a: seq<Op>, b: seq<Op>)
    ensures After(v, a + b) == After(After(v, a), b)
    decreases |a|
  {
    if a == [] {
      assert a + b == b;
    } else {
      Uncons(a, b);
      AfterConcat(Apply(v, a[0]), a[1..], b);
    }
  }

  // -------------------------------------------------------------- safe at every step

  /** What keeps the invariant when this change is made now. */
  predicate Harmless(v: Vault, op: Op) {
    match op
    case PutBlob => true
    case DeleteBlob(id) => id !in LiveRefs(v) + RefsOf(Newest(v.versions))
    case PutRecord(b) => Refs(b) <= v.blobs && Refs(b) !! RefsOf(v.versions)
    case Archive(b, _) => Refs(b) <= v.blobs && Refs(b) !! RefsOf(Records(v))
  }

  /** These changes, each of them harmless at its turn, lead from `v` to `w`. */
  predicate Leads(v: Vault, ops: seq<Op>, w: Vault)
    decreases |ops|
  {
    if ops == [] then v == w
    else Harmless(v, ops[0]) && Leads(Apply(v, ops[0]), ops[1..], w)
  }

  lemma LeadsNowhere(v: Vault)
    ensures Leads(v, [], v)
  {
  }

  lemma LeadsBy(v: Vault, op: Op, w: Vault)
    requires Harmless(v, op) && Apply(v, op) == w
    ensures Leads(v, [op], w)
  {
    assert [op][1..] == [];
  }

  lemma {:induction false} LeadsThrough(v: Vault, a: seq<Op>, w: Vault, b: seq<Op>, x: Vault)
    requires Leads(v, a, w) && Leads(w, b, x)
    ensures Leads(v, a + b, x)
    decreases |a|
  {
    if a == [] {
      assert a + b == b;
    } else {
      Uncons(a, b);
      LeadsThrough(Apply(v, a[0]), a[1..], w, b, x);
    }
  }

  lemma {:induction false} LeadsAfter(v: Vault, ops: seq<Op>, w: Vault)
    requires Leads(v, ops, w)
    ensures After(v, ops) == w
    decreases |ops|
  {
    if ops != [] {
      LeadsAfter(Apply(v, ops[0]), ops[1..], w);
    }
  }

  /** Removing some of the versions beyond the kept ones leaves the newest where they are. */
  lemma PruningSplits(all: seq<Backup>, k: nat)
    requires k <= |Beyond(all)|
    ensures var gone, left := Beyond(all)[..k], Beyond(all)[k..];
      && RefsOf(Beyond(all)) == RefsOf(gone) + RefsOf(left)
      && RefsOf(Newest(all) + left) == RefsOf(Newest(all)) + RefsOf(left)
      && (Apart(all) ==> Apart(Newest(all) + left) && RefsOf(Newest(all) + left) !! RefsOf(gone))
      && Newest(Newest(all) + left) == Newest(all)
  {
    var gone, left := Beyond(all)[..k], Beyond(all)[k..];
    assert Beyond(all) == gone + left;
    NewestAndBeyond(all);
    RefsOfConcat(gone, left);
    RefsOfConcat(Newest(all), left);
    if |all| <= KEPT {
      assert left == [] && Newest(all) + left == Newest(all);
    } else {
      assert (Newest(all) + left)[..KEPT] == Newest(all);
    }
  }

  /** Archiving loses no reference: each old one is still on record or was removed. */
  lemma ArchiveSplits(v: Vault, b: Backup, how: Archiving)
    requires Apart(v.versions) && Refs(b) !! RefsOf(v.versions)
    ensures var t, r := Versions(v, b, how), Removed([b] + v.versions, how);
      && Apart(t) && RefsOf(t) !! RefsOf(r)
      && RefsOf(t) + RefsOf(r) == RefsOf(v.versions) + (if how.NotInserted? then {} else Refs(b))
      && RefsOf(Newest(t)) <= RefsOf(Newest(v.versions)) + Refs(b)
      && RefsOf(r) <= RefsOf(Pruned(v, b, how)) && RefsOf(Newest(t)) !! RefsOf(Pruned(v, b, how))
  {
    var all := [b] + v.versions;
    assert all[1..] == v.versions && Apart(all);
    if how.NotInserted? {
    } else {
      var n := if how.Complete? then |Beyond(all)| else if how.NotPruned? then 0 else how.removed;
      var k := if n < |Beyond(all)| then n else |Beyond(all)|;
      NewestOfLonger(b, v.versions);
      PruningSplits(all, k);
      NewestAndBeyond(all);
      VersionsAre(v, b, how, k);
    }
  }

  lemma VersionsAre(v: Vault, b: Backup, how: Archiving, k: nat)
    requires var all := [b] + v.versions;
      && k <= |Beyond(all)| && !how.NotInserted?
      && (how.Complete? ==> k == |Beyond(all)|) && (how.NotPruned? ==> k == 0)
      && (how.PartlyPruned? ==> k == if how.removed < |Beyond(all)| then how.removed else |Beyond(all)|)
    ensures var all := [b] + v.versions;
      && Versions(v, b, how) == Newest(all) + Beyond(all)[k..] && Removed(all, how) == Beyond(all)[..k]
  {
    NewestAndBeyond([b] + v.versions);
  }

  lemma NewestOfLonger(b: Backup, s: seq<Backup>)
    ensures RefsOf(Newest([b] + s)) <= Refs(b) + RefsOf(Newest(s))
  {
    var all := [b] + s;
    assert Newest(all) != [] && Newest(all)[0] == b;
    var m := Newest(all)[1..];
    assert m <= Newest(s);
    assert Newest(s) == m + Newest(s)[|m|..];
    RefsOfConcat(m, Newest(s)[|m|..]);
  }

  lemma RecordsRefs(v: Vault)
    ensures RefsOf(Records(v)) == LiveRefs(v) + RefsOf(v.versions)
    ensures Apart(Records(v)) <==> Apart(v.versions) && LiveRefs(v) !! RefsOf(v.versions)
  {
    if v.live.Stored? {
      assert Records(v)[1..] == v.versions;
    }
  }

  lemma HarmlessKeeps(v: Vault, op: Op)
    requires Inv(v) && Harmless(v, op)
    ensures Inv(Apply(v, op))
  {
    RecordsRefs(v);
    RecordsRefs(Apply(v, op));
    NewestAndBeyond(v.versions);
    if op.Archive? {
      ArchiveSplits(v, op.backup, op.how);
    }
  }

  /** Harmless changes keep the invariant after each one of them. */
  lemma {:induction false} LeadsKeeps(v: Vault, ops: seq<Op>, w: Vault, k: nat)
    requires Inv(v) && Leads(v, ops, w) && k <= |ops|
    ensures Inv(After(v, ops[..k]))
    decreases k
  {
    if k > 0 {
      HarmlessKeeps(v, ops[0]);
      assert ops[..k][0] == ops[0] && ops[..k][1..] == ops[1..][..k - 1];
      LeadsKeeps(Apply(v, ops[0]), ops[1..], w, k - 1);
    }
  }

  function Minus(v: Vault, ids: set<BlobId>): Vault {
    v.(blobs := v.blobs - ids)
  }

  /** No kept record refers to any of these blobs. */
  predicate Unkept(v: Vault, ids: set<BlobId>) {
    LiveRefs(v) !! ids && RefsOf(Newest(v.versions)) !! ids
  }

  lemma DeletionEffect(v: Vault, id: BlobId, stuck: set<BlobId>)
    requires Unkept(v, {id})
    ensures Leads(v, Deletion(id, stuck), Minus(v, {id} - stuck))
  {
    if id in stuck {
      assert {id} - stuck == {};
      assert Minus(v, {id} - stuck) == v;
      LeadsNowhere(v);
    } else {
      assert {id} - stuck == {id};
      assert id in {id};
      LeadsBy(v, DeleteBlob(id), Minus(v, {id} - stuck));
    }
  }

  lemma UnsharedEffect(v: Vault, id: BlobId, inUse: BlobId, stuck: set<BlobId>)
    requires id == NO_BLOB || (id != inUse && Unkept(v, {id}))
    ensures Leads(v, Unshared(id, inUse, stuck), Minus(v, {id} - {NO_BLOB} - stuck))
  {
    if id == NO_BLOB {
      assert {id} - {NO_BLOB} - stuck == {};
      assert Minus(v, {id} - {NO_BLOB} - stuck) == v;
      LeadsNowhere(v);
    } else {
      assert {id} - {NO_BLOB} == {id};
      DeletionEffect(v, id, stuck);
    }
  }

  lemma VersionDeletionsEffect(v: Vault, p: Backup, b: Backup, stuck: set<BlobId>)
    requires Refs(b) !! Refs(p) && Unkept(v, Refs(p))
    ensures Leads(v, VersionDeletions(p, b, stuck), Minus(v, Refs(p) - stuck))
  {
    var x := {p.state} - {NO_BLOB} - stuck;
    var y := {p.transcript} - {NO_BLOB} - stuck;
    assert p.state == NO_BLOB || p.state in Refs(p);
    assert p.transcript == NO_BLOB || p.transcript in Refs(p);
    assert b.state == NO_BLOB || b.state in Refs(b);
    assert b.transcript == NO_BLOB || b.transcript in Refs(b);
    UnsharedEffect(v, p.state, b.state, stuck);
    UnsharedEffect(Minus(v, x), p.transcript, b.transcript, stuck);
    MinusMinus(v, x, y);
    assert x + y == Refs(p) - stuck;
    LeadsThrough(v, Unshared(p.state, b.state, stuck), Minus(v, x),
                 Unshared(p.transcript, b.transcript, stuck), Minus(v, x + y));
  }

  lemma MinusMinus(v: Vault, x: set<BlobId>, y: set<BlobId>)
    ensures Minus(Minus(v, x), y) == Minus(v, x + y)
  {
    assert v.blobs - x - y == v.blobs - (x + y);
  }

  /** Deleting blobs that no kept record references is harmless, and deletes just those. */
  lemma {:induction false} DeletionsEffect(v: Vault, pruned: seq<Backup>, b: Backup, stuck: set<BlobId>)
    requires Refs(b) !! RefsOf(pruned) && Unkept(v, RefsOf(pruned))
    ensures Leads(v, Deletions(pruned, b, stuck), Minus(v, RefsOf(pruned) - stuck))
    decreases |pruned|
  {
    if pruned == [] {
      assert Minus(v, RefsOf(pruned) - stuck) == v;
      LeadsNowhere(v);
    } else {
      var x, y := Refs(pruned[0]) - stuck, RefsOf(pruned[1..]) - stuck;
      VersionDeletionsEffect(v, pruned[0], b, stuck);
      DeletionsEffect(Minus(v, x), pruned[1..], b, stuck);
      MinusMinus(v, x, y);
      assert x + y == RefsOf(pruned) - stuck;
      LeadsThrough(v, VersionDeletions(pruned[0], b, stuck), Minus(v, x),
                   Deletions(pruned[1..], b, stuck), Minus(v, x + y));
    }
  }

  // ----------------------------------------------------------------- one request

  function Plus(v: Vault, n: nat, ids: set<BlobId>): Vault {
    v.(blobs := v.blobs + ids, next := v.next + n)
  }

  /** The vault once the new blobs are stored. */
  function WithBlobs(v: Vault, u: Upload): Vault {
    Plus(v, |Puts(u)|, Refs(NewBackup(v, u)))
  }

  lemma PutsEffect(v: Vault, u: Upload)
    requires 0 < v.next
    ensures Leads(v, Puts(u), WithBlobs(v, u))
  {
    var b := NewBackup(v, u);
    if u.hasTranscript {
      PutTwice(v);
      assert Refs(b) == {v.next} + {v.next + 1};
    } else {
      PutOnce(v);
      assert Refs(b) == {v.next};
    }
  }

  lemma PutOnce(v: Vault)
    ensures Leads(v, [PutBlob], Plus(v, 1, {v.next}))
  {
    LeadsBy(v, PutBlob, Plus(v, 1, {v.next}));
  }

  lemma PlusPlus(v: Vault, m: nat, x: set<BlobId>, n: nat, y: set<BlobId>)
    ensures Plus(Plus(v, m, x), n, y) == Plus(v, m + n, x + y)
  {
    assert v.blobs + x + y == v.blobs + (x + y);
  }

  lemma PutAgain(v: Vault, x: Vault)
    requires x == Plus(Plus(v, 1, {v.next}), 1, {v.next + 1})
    ensures Leads(v, [PutBlob] + [PutBlob], x)
  {
    var w := Plus(v, 1, {v.next});
    PutOnce(v);
    PutOnce(w);
    LeadsThrough(v, [PutBlob], w, [PutBlob], x);
  }

  lemma PutTwice(v: Vault)
    ensures Leads(v, [PutBlob] + [PutBlob], Plus(v, 2, {v.next} + {v.next + 1}))
  {
    PlusPlus(v, 1, {v.next}, 1, {v.next + 1});
    PutAgain(v, Plus(v, 2, {v.next} + {v.next + 1}));
  }

  lemma OneOp(v: Vault, op: Op)
    ensures After(v, [op]) == Apply(v, op)
  {
    assert [op][1..] == [];
  }

  /** Fresh blobs are shared with nothing on record. */
  lemma NewIsFresh(v: Vault, u: Upload)
    requires Inv(v)
    ensures Refs(NewBackup(v, u)) !! RefsOf(Records(v)) && Refs(NewBackup(v, u)) !! v.blobs
    ensures Inv(WithBlobs(v, u)) && Records(WithBlobs(v, u)) == Records(v)
  {
    RecordsRefs(v);
  }

  /** A request that fails leaves every record alone, and at worst its own blobs behind. */
  lemma FailureEffect(v: Vault, u: Upload)
    requires Inv(v) && Outcome(v, u).InternalError?
    ensures Leads(v, Plan(v, u), Uploaded(v, u))
    ensures var w := Uploaded(v, u);
      w.live == v.live && w.versions == v.versions && w.blobs == v.blobs + Leaked(v, u)
  {
    var f := u.faults;
    var b := NewBackup(v, u);
    var n := if f.putState then 0 else if u.hasTranscript && f.putTranscript then 1 else |Puts(u)|;
    if f.putState {
      assert Plus(v, 0, {}) == v;
      LeadsNowhere(v);
    } else if u.hasTranscript && f.putTranscript {
      RolledBackOne(v, u);
    } else {
      RolledBack(v, u);
    }
    LeadsAfter(v, Plan(v, u), Plus(v, n, Leaked(v, u)));
  }

  /** Deleting what was just put leaves what could not be deleted. */
  lemma PlusMinus(v: Vault, n: nat, ids: set<BlobId>, stuck: set<BlobId>)
    requires ids !! v.blobs
    ensures Minus(Plus(v, n, ids), ids - stuck) == Plus(v, n, ids * stuck)
  {
    assert v.blobs + ids - (ids - stuck) == v.blobs + ids * stuck;
  }

  lemma NewIsUnkept(v: Vault, u: Upload)
    requires Inv(v)
    ensures Unkept(v, Refs(NewBackup(v, u))) && Unkept(v, {v.next}) && {v.next} !! v.blobs
  {
    NewIsFresh(v, u);
    RecordsRefs(v);
    NewestAndBeyond(v.versions);
    assert v.next in Refs(NewBackup(v, u));
  }

  lemma RolledBackOne(v: Vault, u: Upload)
    requires Inv(v)
    ensures Leads(v, [PutBlob] + Deletion(v.next, u.faults.stuck), Plus(v, 1, {v.next} * u.faults.stuck))
  {
    var w := Plus(v, 1, {v.next});
    NewIsUnkept(v, u);
    LeadsBy(v, PutBlob, w);
    DeletionEffect(w, v.next, u.faults.stuck);
    PlusMinus(v, 1, {v.next}, u.faults.stuck);
    LeadsThrough(v, [PutBlob], w, Deletion(v.next, u.faults.stuck), Plus(v, 1, {v.next} * u.faults.stuck));
  }

  lemma RolledBack(v: Vault, u: Upload)
    requires Inv(v)
    ensures Leads(v, Puts(u) + Rollback(NewBackup(v, u), u.faults.stuck),
                  Plus(v, |Puts(u)|, Refs(NewBackup(v, u)) * u.faults.stuck))
  {
    var b := NewBackup(v, u);
    NewIsFresh(v, u);
    NewIsUnkept(v, u);
    PutsEffect(v, u);
    RollbackEffect(WithBlobs(v, u), b, u.faults.stuck);
    PlusMinus(v, |Puts(u)|, Refs(b), u.faults.stuck);
    LeadsThrough(v, Puts(u), WithBlobs(v, u), Rollback(b, u.faults.stuck),
                 Plus(v, |Puts(u)|, Refs(b) * u.faults.stuck));
  }

  lemma RollbackEffect(w: Vault, b: Backup, stuck: set<BlobId>)
    requires b.state != NO_BLOB && Unkept(w, Refs(b))
    ensures Leads(w, Rollback(b, stuck), Minus(w, Refs(b) - stuck))
  {
    var x, y := {b.state} - stuck, {b.transcript} - stuck;
    assert b.state in Refs(b);
    DeletionEffect(w, b.state, stuck);
    if b.transcript != NO_BLOB {
      assert b.transcript in Refs(b);
      DeletionEffect(Minus(w, x), b.transcript, stuck);
      MinusMinus(w, x, y);
      assert x + y == Refs(b) - stuck;
      LeadsThrough(w, Deletion(b.state, stuck), Minus(w, x), Deletion(b.transcript, stuck), Minus(w, x + y));
    } else {
      assert Refs(b) == {b.state};
      LeadsNowhere(Minus(w, x));
      LeadsThrough(w, Deletion(b.state, stuck), Minus(w, x), [], Minus(w, x));
    }
  }

  /** The vault after an accepted upload. */
  function Installed(v: Vault, u: Upload): Vault {
    Minus(WithBlobs(v, u).(live := Stored(NewBackup(v, u)),
                           versions := if Readable(v, u) then Versions(v, v.live.backup, u.faults.archiving) else v.versions),
          Dropped(v, u) - u.faults.stuck)
  }

  /** A request that succeeds installs its backup and supersedes the one it read. */
  lemma SuccessEffect(v: Vault, u: Upload)
    requires Inv(v) && Outcome(v, u).NoContent?
    ensures Leads(v, Plan(v, u), Installed(v, u)) && Uploaded(v, u) == Installed(v, u)
  {
    var b := NewBackup(v, u);
    var w := WithBlobs(v, u);
    var x := w.(live := Stored(b));
    NewIsFresh(v, u);
    RecordsRefs(v);
    PutsEffect(v, u);
    LeadsBy(w, PutRecord(b), x);
    SupersedingEffect(v, u, x);
    LeadsThrough(w, [PutRecord(b)], x, Superseding(v, u), Installed(v, u));
    LeadsThrough(v, Puts(u), w, [PutRecord(b)] + Superseding(v, u), Installed(v, u));
    LeadsAfter(v, Plan(v, u), Installed(v, u));
  }

  /** What a successful request tries to delete. */
  function Dropped(v: Vault, u: Upload): set<BlobId> {
    if Readable(v, u) then RefsOf(Pruned(v, v.live.backup, u.faults.archiving)) else {}
  }

  lemma PrunedRefs(v: Vault, b: Backup, how: Archiving)
    ensures RefsOf(Pruned(v, b, how)) <= Refs(b) + RefsOf(v.versions)
  {
    var all := [b] + v.versions;
    assert all[1..] == v.versions;
    NewestAndBeyond(all);
  }

  lemma SupersedingEffect(v: Vault, u: Upload, x: Vault)
    requires Inv(v)
    requires x == WithBlobs(v, u).(live := Stored(NewBackup(v, u)))
    ensures Leads(x, Superseding(v, u), Installed(v, u))
  {
    NewIsFresh(v, u);
    RecordsRefs(v);
    RecordsRefs(x);
    if !Readable(v, u) {
      assert Installed(v, u) == x;
      LeadsNowhere(x);
    } else {
      var prev, how, b, stuck := v.live.backup, u.faults.archiving, NewBackup(v, u), u.faults.stuck;
      var y := x.(versions := Versions(v, prev, how));
      var pruned := Pruned(v, prev, how);
      PrunedRefs(v, prev, how);
      ArchiveSplits(v, prev, how);
      LeadsBy(x, Archive(prev, how), y);
      DeletionsEffect(y, pruned, b, stuck);
      LeadsThrough(x, [Archive(prev, how)], y, Deletions(pruned, b, stuck), Installed(v, u));
    }
  }

  // -------------------------------------------------------------------- leaked blobs

  /** The blobs one request leaves behind with nothing referring to them. */
  function Leaked(v: Vault, u: Upload): set<BlobId> {
    var f := u.faults;
    var b := NewBackup(v, u);
    match Outcome(v, u)
    case Unavailable => {}
    case Conflict => {}
    case InternalError =>
      if f.putState then {}
      else if u.hasTranscript && f.putTranscript then {b.state} * f.stuck
      else Refs(b) * f.stuck
    case NoContent =>
      if v.live.Missing? then {}
      else if f.read || f.archiving.NotInserted? then LiveRefs(v)
      else RefsOf(Removed([v.live.backup] + v.versions, f.archiving)) * f.stuck * v.blobs
  }

  /** Versions found beyond the kept ones whose records stay although their blobs are deleted. */
  function Leftover(v: Vault, u: Upload): seq<Backup> {
    var how := u.faults.archiving;
    if Outcome(v, u).NoContent? && Readable(v, u) && how.PartlyPruned?
       && how.removed < |Beyond([v.live.backup] + v.versions)|
    then Beyond([v.live.backup] + v.versions)[how.removed..] else []
  }

  lemma PlanIsHarmless(v: Vault, u: Upload)
    requires Inv(v)
    ensures Leads(v, Plan(v, u), Uploaded(v, u)) && Inv(Uploaded(v, u))
  {
    if Outcome(v, u).InternalError? {
      FailureEffect(v, u);
    } else if Outcome(v, u).NoContent? {
      SuccessEffect(v, u);
    } else {
      LeadsNowhere(v);
    }
    LeadsKeeps(v, Plan(v, u), Uploaded(v, u), |Plan(v, u)|);
    assert Plan(v, u)[..|Plan(v, u)|] == Plan(v, u);
  }

  lemma {:induction false} RunKeeps(v: Vault, uploads: seq<Upload>)
    requires Inv(v)
    ensures Inv(Run(v, uploads))
  {
    if uploads != [] {
      RunKeeps(v, uploads[..|uploads| - 1]);
      PlanIsHarmless(Run(v, uploads[..|uploads| - 1]), uploads[|uploads| - 1]);
    }
  }

  /**
   Whichever calls fail, and after every single step of every request, the live record and
   the newest versions have all their blobs.
   */
  lemma KeptBackupsAlwaysHaveTheirBlobs(uploads: seq<Upload>, u: Upload, k: nat)
    requires var v := Run(EMPTY, uploads); k <= |Plan(v, u)|
    ensures var v := Run(EMPTY, uploads); KeptIntact(After(v, Plan(v, u)[..k]))
  {
    RunKeeps(EMPTY, uploads);
    var v := Run(EMPTY, uploads);
    PlanIsHarmless(v, u);
    LeadsKeeps(v, Plan(v, u), Uploaded(v, u), k);
  }

  /** Which blobs nothing refers to afterwards: exactly those from before and those leaked. */
  lemma OrphansAreExact(v: Vault, u: Upload)
    requires Inv(v)
    ensures Orphans(Uploaded(v, u)) == Orphans(v) + Leaked(v, u)
  {
    var w := Uploaded(v, u);
    NewIsFresh(v, u);
    RecordsRefs(v);
    RecordsRefs(w);
    if Outcome(v, u).InternalError? {
      FailureEffect(v, u);
      assert Records(w) == Records(v);
    } else if Outcome(v, u).NoContent? {
      SuccessEffect(v, u);
      if Readable(v, u) {
        OrphansOfSuccess(v, u);
      }
    } else {
      assert w == v;
    }
  }

  lemma OrphansOfSuccess(v: Vault, u: Upload)
    requires Inv(v) && Outcome(v, u).NoContent? && Readable(v, u)
    ensures Orphans(Uploaded(v, u)) == Orphans(v) + Leaked(v, u)
  {
    var w, prev, how := Uploaded(v, u), v.live.backup, u.faults.archiving;
    var removed := RefsOf(Removed([prev] + v.versions, how));
    NewIsFresh(v, u);
    RecordsRefs(v);
    RecordsRefs(w);
    SuccessEffect(v, u);
    PrunedRefs(v, prev, how);
    ArchiveSplits(v, prev, how);
    if how.NotInserted? {
      assert LiveRefs(v) <= v.blobs;
    } else {
      OrphanSets(v.blobs, Refs(NewBackup(v, u)), RefsOf(Records(v)), RefsOf(w.versions), removed,
                 Dropped(v, u), u.faults.stuck);
    }
  }

  /** Of the old references, those removed from the records are orphans unless dropped. */
  lemma OrphanSets(blobs: set<BlobId>, added: set<BlobId>, was: set<BlobId>, kept: set<BlobId>,
                   removed: set<BlobId>, dropped: set<BlobId>, stuck: set<BlobId>)
    requires was == kept + removed && kept !! removed && removed <= dropped <= was
    requires added !! blobs && added !! was
    ensures blobs + added - (dropped - stuck) - (added + kept) == (blobs - was) + removed * stuck * blobs
  {
  }

  /** No cleanup deletion fails, the stored backup can be read and its archive record written. */
  predicate Clean(u: Upload) {
    u.faults.stuck == {} && !u.faults.read && !u.faults.archiving.NotInserted?
  }

  lemma {:induction false} CleanRunsLeakNothing(uploads: seq<Upload>)
    requires forall i :: 0 <= i < |uploads| ==> Clean(uploads[i])
    ensures Orphans(Run(EMPTY, uploads)) == {}
  {
    if uploads != [] {
      var n := |uploads| - 1;
      CleanRunsLeakNothing(uploads[..n]);
      RunKeeps(EMPTY, uploads[..n]);
      OrphansAreExact(Run(EMPTY, uploads[..n]), uploads[n]);
      assert Clean(uploads[n]);
    }
  }

  /**
   A version still on record loses a blob exactly when archiving stopped after finding it
   but before removing its record, and the blob's deletion went through.
   */
  lemma VersionsDangleExactly(v: Vault, u: Upload)
    requires Inv(v) && AllIntact(v)
    ensures AllIntact(Uploaded(v, u)) <==> RefsOf(Leftover(v, u)) <= u.faults.stuck
  {
    var w := Uploaded(v, u);
    NewIsFresh(v, u);
    RecordsRefs(v);
    RecordsRefs(w);
    if Outcome(v, u).InternalError? {
      FailureEffect(v, u);
    } else if Outcome(v, u).NoContent? {
      SuccessEffect(v, u);
      if Readable(v, u) {
        LeftoverRefs(v, u);
        PrunedRefs(v, v.live.backup, u.faults.archiving);
        ArchiveSplits(v, v.live.backup, u.faults.archiving);
        DanglingSets(v.blobs, Refs(NewBackup(v, u)), RefsOf(w.versions), Dropped(v, u), u.faults.stuck);
      }
    } else {
      assert w == v;
    }
  }

  lemma DanglingSets(blobs: set<BlobId>, added: set<BlobId>, kept: set<BlobId>, dropped: set<BlobId>, stuck: set<BlobId>)
    requires kept <= blobs && added !! dropped
    ensures added + kept <= blobs + added - (dropped - stuck) <==> dropped * kept <= stuck
  {
  }

  lemma LeftoverRefs(v: Vault, u: Upload)
    requires Inv(v) && Readable(v, u) && Outcome(v, u).NoContent?
    ensures RefsOf(Leftover(v, u)) == Dropped(v, u) * RefsOf(Uploaded(v, u).versions)
  {
    var prev, how := v.live.backup, u.faults.archiving;
    var all := [prev] + v.versions;
    SuccessEffect(v, u);
    RecordsRefs(v);
    assert all[1..] == v.versions;
    NewestAndBeyond(all);
    ArchiveSplits(v, prev, how);
    if how.PartlyPruned? && how.removed < |Beyond(all)| {
      PruningSplits(all, how.removed);
    }
  }

  /** A state-only upload during which nothing fails but the archiving as given. */
  function Plain(how: Archiving): Upload {
    Upload(false, 0, false, 0, Faults(false, false, false, false, false, how, {}))
  }

  function StateOnly(n: nat): seq<Backup> {
    if n == 0 then [] else [Backup(n, NO_BLOB, 0)] + StateOnly(n - 1)
  }

  function FirstIds(n: nat): set<BlobId> {
    if n == 0 then {} else {n} + FirstIds(n - 1)
  }

  /** The vault after `n` such uploads, as long as the archive is not full. */
  function Filled(n: nat): Vault {
    Vault(FirstIds(n), n + 1, if n == 0 then Missing else Stored(Backup(n, NO_BLOB, 0)),
          if n == 0 then [] else StateOnly(n - 1))
  }

  lemma {:induction false} StateOnlyRefs(n: nat)
    ensures |StateOnly(n)| == n && RefsOf(StateOnly(n)) == FirstIds(n)
  {
    if n > 0 {
      assert StateOnly(n)[1..] == StateOnly(n - 1);
      StateOnlyRefs(n - 1);
    }
  }

  lemma FillingUp(n: nat)
    requires n <= KEPT && Inv(Filled(n))
    ensures Uploaded(Filled(n), Plain(Complete)) == Filled(n + 1)
  {
    var v, u := Filled(n), Plain(Complete);
    SuccessEffect(v, u);
    if n > 0 {
      StateOnlyRefs(n);
      assert [v.live.backup] + v.versions == StateOnly(n);
      assert Pruned(v, v.live.backup, Complete) == [];
    }
    assert Refs(NewBackup(v, u)) == {n + 1};
    assert v.blobs + {n + 1} == Filled(n + 1).blobs;
    assert Dropped(v, u) == {};
    assert Installed(v, u).blobs == Filled(n + 1).blobs;
  }

  lemma {:induction false} FilledRun(n: nat)
    requires n <= KEPT + 1
    ensures Run(EMPTY, seq(n, _ => Plain(Complete))) == Filled(n) && Inv(Filled(n))
  {
    var uploads := seq(n, _ => Plain(Complete));
    RunKeeps(EMPTY, uploads);
    if n == 0 {
      assert uploads == [];
      assert Filled(0).blobs == {};
    } else {
      assert uploads[..n - 1] == seq(n - 1, _ => Plain(Complete));
      FilledRun(n - 1);
      FillingUp(n - 1);
    }
  }

  /** A run from nothing in which a listed version loses its blob: archiving stops before removing the record. */
  lemma ListedVersionCanDangle()
    ensures exists uploads: seq<Upload> :: !AllIntact(Run(EMPTY, uploads))
  {
    var n := KEPT + 1;
    var uploads := seq(n, _ => Plain(Complete));
    var v, u := Filled(n), Plain(PartlyPruned(0));
    FilledRun(n);
    RecordsRefs(v);
    StateOnlyRefs(n);
    StateOnlyRefs(n - 1);
    assert [v.live.backup] + v.versions == StateOnly(n);
    VersionsDangleExactly(v, u);
    assert Leftover(v, u) == StateOnly(n)[KEPT..];
    LastOfStateOnly(n);
    assert 1 in RefsOf(Leftover(v, u));
    assert (uploads + [u])[..n] == uploads;
    assert Run(EMPTY, uploads + [u]) == Uploaded(v, u);
  }

  lemma {:induction false} LastOfStateOnly(n: nat)
    requires n > 0
    ensures |StateOnly(n)| == n && StateOnly(n)[n - 1..] == [Backup(1, NO_BLOB, 0)] && RefsOf(StateOnly(n)[n - 1..]) == {1}
  {
    StateOnlyRefs(n);
    StateOnlyRefs(n - 1);
    if n == 1 {
      assert StateOnly(1)[0..] == [Backup(1, NO_BLOB, 0)];
    } else {
      LastOfStateOnly(n - 1);
      assert StateOnly(n)[n - 1..] == StateOnly(n - 1)[n - 2..];
    }
  }

  // ------------------------------------------------------- what a user can still open

  /** The backup on record, and so everything it holds, is one of the newest versions with its blobs. */
  predicate Recoverable(v: Vault, b: Backup, within: nat) {
    && Refs(b) <= v.blobs
    && exists i: nat :: i <= within && i < |v.versions| && i < KEPT && v.versions[i] == b
  }

  lemma RefsOfMember(s: seq<Backup>, i: nat)
    requires i < |s|
    ensures Refs(s[i]) <= RefsOf(s)
  {
    if i > 0 {
      RefsOfMember(s[1..], i - 1);
    }
  }

  lemma RecoverableFrom(v: Vault, i: nat, within: nat)
    requires Inv(v) && i <= within && i < |v.versions| && i < KEPT
    ensures Recoverable(v, v.versions[i], within)
  {
    assert Newest(v.versions)[i] == v.versions[i];
    RefsOfMember(Newest(v.versions), i);
  }

  /** An accepted upload pushes each earlier version back by at most one place. */
  lemma UploadPushesBack(v: Vault, u: Upload, i: nat)
    requires Inv(v) && i < |v.versions| && i + 1 < KEPT
    ensures var w := Uploaded(v, u).versions;
      (i < |w| && w[i] == v.versions[i]) || (i + 1 < |w| && w[i + 1] == v.versions[i])
  {
    if Outcome(v, u).InternalError? {
      FailureEffect(v, u);
    } else if Outcome(v, u).NoContent? {
      SuccessEffect(v, u);
      if Readable(v, u) {
        ArchivePushesBack(v, v.live.backup, u.faults.archiving, i);
      }
    }
  }

  lemma ArchivePushesBack(v: Vault, b: Backup, how: Archiving, i: nat)
    requires i < |v.versions| && i + 1 < KEPT
    ensures var w := Versions(v, b, how);
      (i < |w| && w[i] == v.versions[i]) || (i + 1 < |w| && w[i + 1] == v.versions[i])
  {
    var all := [b] + v.versions;
    assert all[i + 1] == v.versions[i];
    assert Newest(all)[i + 1] == all[i + 1];
  }

  /**
   Replacing a backup does not destroy it: unless it could not be read or its archive record
   not written, it stays openable through as many later uploads as there are further places
   in the archive, whatever those uploads replace and whichever of their calls fail.
   */
  lemma SupersededBackupStaysOpenable(v: Vault, u: Upload, later: seq<Upload>)
    requires Inv(v) && Outcome(v, u).NoContent? && Readable(v, u) && |later| < KEPT
    requires !u.faults.archiving.NotInserted?
    ensures Recoverable(Run(Uploaded(v, u), later), v.live.backup, |later|)
  {
    var w := Uploaded(v, u);
    SuccessEffect(v, u);
    PlanIsHarmless(v, u);
    assert Newest([v.live.backup] + v.versions)[0] == v.live.backup;
    RecoverableFrom(w, 0, 0);
    StaysRecoverable(w, later, v.live.backup);
  }

  lemma {:induction false} StaysRecoverable(w: Vault, later: seq<Upload>, b: Backup)
    requires Inv(w) && Recoverable(w, b, 0) && |later| < KEPT
    ensures Recoverable(Run(w, later), b, |later|)
  {
    if later != [] {
      var n := |later| - 1;
      StaysRecoverable(w, later[..n], b);
      RunKeeps(w, later[..n]);
      var x := Run(w, later[..n]);
      var i: nat :| i <= n && i < |x.versions| && i < KEPT && x.versions[i] == b;
      UploadPushesBack(x, later[n], i);
      PlanIsHarmless(x, later[n]);
      var y := Uploaded(x, later[n]);
      if i < |y.versions| && y.versions[i] == b {
        RecoverableFrom(y, i, n + 1);
      } else {
        RecoverableFrom(y, i + 1, n + 1);
      }
    }
  }

  /** The messages held before an upload: those of the stored backup and its tail. */
  function Held(v: Vault, u: Upload): int
    requires v.live.Stored?
  {
    v.live.backup.messages + u.tailHeld
  }

  /**
   When an accepted, unforced upload keeps what was held: with a transcript, if the stored
   backup could be read or enough messages are claimed anyway; without one a count of zero is
   recorded, whatever was claimed.
   */
  lemma AcceptedUploadKeepsHistoryExactly(v: Vault, u: Upload)
    requires Inv(v) && v.live.Stored? && Outcome(v, u).NoContent? && !u.force
    ensures Uploaded(v, u).live.Stored?
    ensures Uploaded(v, u).live.backup.messages >= Held(v, u)
      <==> if u.hasTranscript then !u.faults.read || u.messages >= Held(v, u) else Held(v, u) <= 0
  {
    SuccessEffect(v, u);
  }

  predicate Shrank(v: Vault, u: Upload) {
    && !u.force && Outcome(v, u).NoContent? && v.live.Stored? && Uploaded(v, u).live.Stored?
    && Uploaded(v, u).live.backup.messages < v.live.backup.messages
  }

  /** The vault once five messages are backed up, with nothing failing. */
  lemma FiveStored(first: Upload)
    requires first == Upload(true, 5, false, 0, Faults(false, false, false, false, false, Complete, {}))
    ensures var v := Uploaded(EMPTY, first); Inv(v) && v.live.Stored? && v.live.backup.messages == 5
  {
    SuccessEffect(EMPTY, first);
    PlanIsHarmless(EMPTY, first);
  }

  /** An unforced upload can shrink it: five messages stored, five claimed, no transcript sent. */
  lemma UnforcedUploadCanShrinkHistory()
    ensures exists first: Upload, second: Upload :: Shrank(Uploaded(EMPTY, first), second) && Readable(Uploaded(EMPTY, first), second)
  {
    var none := Faults(false, false, false, false, false, Complete, {});
    var first, second := Upload(true, 5, false, 0, none), Upload(false, 5, false, 0, none);
    FiveStored(first);
    AcceptedUploadKeepsHistoryExactly(Uploaded(EMPTY, first), second);
    assert Shrank(Uploaded(EMPTY, first), second);
  }

  /** So can one with an empty transcript, if the read of the stored backup fails. */
  lemma FailedReadLetsHistoryShrink()
    ensures exists first: Upload, second: Upload ::
      Shrank(Uploaded(EMPTY, first), second) && second.hasTranscript && second.faults.read
  {
    var none := Faults(false, false, false, false, false, Complete, {});
    var first, second := Upload(true, 5, false, 0, none), Upload(true, 0, false, 0, none.(read := true));
    FiveStored(first);
    AcceptedUploadKeepsHistoryExactly(Uploaded(EMPTY, first), second);
    assert Shrank(Uploaded(EMPTY, first), second);
  }

  /** Unforced, with a transcript, and with the stored backup readable. */
  predicate Guarded(u: Upload) {
    !u.force && u.hasTranscript && !u.faults.read
  }

  /** Over a whole run of guarded uploads the recorded history never shrinks. */
  lemma {:induction false} GuardedHistoryNeverShrinks(v: Vault, uploads: seq<Upload>)
    requires Inv(v) && v.live.Stored? && forall i :: 0 <= i < |uploads| ==> Guarded(uploads[i])
    ensures var w := Run(v, uploads); w.live.Stored? && v.live.backup.messages <= w.live.backup.messages
  {
    if uploads != [] {
      var n := |uploads| - 1;
      GuardedHistoryNeverShrinks(v, uploads[..n]);
      RunKeeps(v, uploads[..n]);
      var w, u := Run(v, uploads[..n]), uploads[n];
      assert Guarded(u);
      if Outcome(w, u).InternalError? {
        FailureEffect(w, u);
      } else if Outcome(w, u).NoContent? {
        SuccessEffect(w, u);
      }
    }
  }

  // ------------------------------------------------------------------- what is answered

  /** The stored backup was read, and with its tail it holds more messages than the upload claims. */
  predicate LosesHistory(v: Vault, u: Upload) {
    v.live.Stored? && !u.faults.read && u.messages < v.live.backup.messages + u.tailHeld
  }

  /** Storing a blob or the record fails. */
  predicate PutFails(u: Upload) {
    u.faults.putState || (u.hasTranscript && u.faults.putTranscript) || u.faults.putRecord
  }

  /** The record points at the blobs just stored, and counts what was claimed for the transcript. */
  predicate IsUploaded(v: Vault, u: Upload, b: Backup) {
    && b.state == v.next
    && (if u.hasTranscript then b.transcript == v.next + 1 && b.messages == u.messages
        else b.transcript == NO_BLOB && b.messages == 0)
  }

  /** The upload is live; what it replaced is the newest version if it was read and its archiving went well. */
  predicate Replaced(v: Vault, u: Upload, w: Vault) {
    && w.live.Stored? && IsUploaded(v, u, w.live.backup) && Refs(w.live.backup) <= w.blobs
    && (v.live.Stored? && !u.faults.read && u.faults.archiving.Complete? ==>
        |w.versions| == (if |v.versions| < 3 then |v.versions| + 1 else 3)
        && w.versions[0] == v.live.backup && w.versions[1..] <= v.versions)
    && (v.live.Missing? || u.faults.read ==> w.versions == v.versions)
  }

  /** What answer an upload gets, and what it leaves behind. */
  predicate Handled(v: Vault, u: Upload, s: Status, w: Vault) {
    && (s.Unavailable? <==> u.faults.tail)
    && (s.Conflict? <==> !u.faults.tail && !u.force && LosesHistory(v, u))
    && (s.InternalError? <==> !u.faults.tail && (u.force || !LosesHistory(v, u)) && PutFails(u))
    && (s.Unavailable? || s.Conflict? ==> w == v)
    && (!s.NoContent? ==> w.live == v.live && w.versions == v.versions)
    && (s.NoContent? ==> Replaced(v, u, w))
  }

  lemma HandledExactly(v: Vault, u: Upload)
    requires Inv(v)
    ensures Handled(v, u, Outcome(v, u), Uploaded(v, u))
  {
    if Outcome(v, u).InternalError? {
      FailureEffect(v, u);
    } else if Outcome(v, u).NoContent? {
      SuccessEffect(v, u);
      PlanIsHarmless(v, u);
    }
  }

  // ------------------------------------------------------------------------ the code

  /** The blob store and the user's records; `done` is the history of successful changes. */
  class Stores {
    var vault: Vault
    ghost var done: seq<Op>

    constructor ()
      ensures vault == EMPTY && done == []
    {
      vault, done := EMPTY, [];
    }

    method PutBlob(fails: bool) returns (ok: bool, id: BlobId)
      modifies this
      ensures ok == !fails && (ok ==> id == old(vault).next)
      ensures Did(old(vault), old(done), if fails then [] else [Op.PutBlob])
    {
      ok, id := !fails, vault.next;
      if ok {
        vault, done := Apply(vault, Op.PutBlob), done + [Op.PutBlob];
      }
      OneOp(old(vault), Op.PutBlob);
    }

    method DeleteBlob(id: BlobId, stuck: set<BlobId>)
      modifies this
      ensures Did(old(vault), old(done), Deletion(id, stuck))
    {
      OneOp(vault, Op.DeleteBlob(id));
      if id !in stuck {
        vault, done := Apply(vault, Op.DeleteBlob(id)), done + [Op.DeleteBlob(id)];
      }
    }

    method PutKeyBackup(b: Backup, fails: bool) returns (ok: bool)
      modifies this
      ensures ok == !fails
      ensures Did(old(vault), old(done), if fails then [] else [PutRecord(b)])
    {
      OneOp(vault, PutRecord(b));
      ok := !fails;
      if ok {
        vault, done := Apply(vault, PutRecord(b)), done + [PutRecord(b)];
      }
    }

    method ArchiveKeyBackup(b: Backup, how: Archiving) returns (pruned: seq<Backup>)
      modifies this
      ensures Did(old(vault), old(done), [Archive(b, how)])
      ensures pruned == Pruned(old(vault), b, how)
    {
      OneOp(vault, Archive(b, how));
      pruned := Pruned(vault, b, how);
      vault, done := Apply(vault, Archive(b, how)), done + [Archive(b, how)];
    }

    /** These changes, and no others, were made since the state given. */
    ghost predicate Did(v: Vault, d: seq<Op>, ops: seq<Op>)
      reads this
    {
      done == d + ops && vault == After(v, ops)
    }

    lemma ThenDid(v: Vault, d: seq<Op>, a: seq<Op>, w: Vault, e: seq<Op>, b: seq<Op>)
      requires e == d + a && w == After(v, a) && Did(w, e, b)
      ensures Did(v, d, a + b)
    {
      AfterConcat(v, a, b);
      assert d + a + b == d + (a + b);
    }

    method DropUnshared(id: BlobId, inUse: BlobId, stuck: set<BlobId>)
      modifies this
      ensures Did(old(vault), old(done), Unshared(id, inUse, stuck))
    {
      if id != NO_BLOB && id != inUse {
        DeleteBlob(id, stuck);
      }
    }

    method DropVersion(p: Backup, b: Backup, stuck: set<BlobId>)
      modifies this
      ensures Did(old(vault), old(done), VersionDeletions(p, b, stuck))
    {
      ghost var v, d := vault, done;
      DropUnshared(p.state, b.state, stuck);
      ghost var w, e := vault, done;
      DropUnshared(p.transcript, b.transcript, stuck);
      ThenDid(v, d, Unshared(p.state, b.state, stuck), w, e, Unshared(p.transcript, b.transcript, stuck));
    }

    static lemma DeletionsFrom(pruned: seq<Backup>, i: nat, b: Backup, stuck: set<BlobId>, made: seq<Op>)
      requires i < |pruned|
      ensures made + Deletions(pruned[i..], b, stuck)
           == made + VersionDeletions(pruned[i], b, stuck) + Deletions(pruned[i + 1..], b, stuck)
    {
      assert pruned[i..][1..] == pruned[i + 1..];
    }

    method DropPruned(pruned: seq<Backup>, b: Backup, stuck: set<BlobId>)
      modifies this
      ensures Did(old(vault), old(done), Deletions(pruned, b, stuck))
    {
      ghost var v, d := vault, done;
      ghost var made: seq<Op> := [];
      for i := 0 to |pruned|
        invariant Did(v, d, made)
        invariant made + Deletions(pruned[i..], b, stuck) == Deletions(pruned, b, stuck)
      {
        ghost var w, e := vault, done;
        DropVersion(pruned[i], b, stuck);
        ghost var one := VersionDeletions(pruned[i], b, stuck);
        ThenDid(v, d, made, w, e, one);
        DeletionsFrom(pruned, i, b, stuck, made);
        made := made + one;
      }
      assert pruned[|pruned|..] == [] && made + [] == made;
    }

    /**
     The handler.  An upload is refused exactly if it is unforced and claims fewer messages
     than the backup that was read and its tail hold; if nothing fails it becomes the live
     backup with the count it claims, and the one it replaces heads the archive.
     */
    method Handle(u: Upload) returns (status: Status)
      requires Inv(vault)
      modifies this
      ensures Inv(vault)
      ensures status == Outcome(old(vault), u)
      ensures Did(old(vault), old(done), Plan(old(vault), u))
      ensures Handled(old(vault), u, status, vault)
    {
      PlanIsHarmless(vault, u);
      HandledExactly(vault, u);
      var f := u.faults;
      var prevOk := vault.live.Stored? && !f.read;
      var prev := vault.live;
      if f.tail {
        return Unavailable;
      }
      if prevOk && !u.force && u.messages < prev.backup.messages + u.tailHeld {
        return Conflict;
      }
      ghost var v, d := vault, done;
      var ok, stateId := PutBlob(f.putState);
      if !ok {
        return InternalError;
      }
      var b := Backup(stateId, NO_BLOB, 0);
      if u.hasTranscript {
        ghost var w, e := vault, done;
        var ok, transcriptId := PutBlob(f.putTranscript);
        if !ok {
          DeleteBlob(stateId, f.stuck);
          ThenDid(v, d, [Op.PutBlob], w, e, Deletion(stateId, f.stuck));
          return InternalError;
        }
        ThenDid(v, d, [Op.PutBlob], w, e, [Op.PutBlob]);
        b := Backup(stateId, transcriptId, u.messages);
      }
      assert Did(v, d, Puts(u)) && b == NewBackup(v, u);
      status := Store(u, b, prevOk, prev, v, d);
    }

    /** From the new blobs on: the record, its rollback, and what it supersedes. */
    method Store(u: Upload, b: Backup, prevOk: bool, prev: Live, ghost v: Vault, ghost d: seq<Op>)
      returns (status: Status)
      requires Did(v, d, Puts(u)) && b == NewBackup(v, u) && prev == v.live && prevOk == Readable(v, u)
      requires !u.faults.tail && !Shrinks(v, u) && !u.faults.putState && !(u.hasTranscript && u.faults.putTranscript)
      requires v.next > 0
      modifies this
      ensures status == Outcome(v, u)
      ensures Did(v, d, Plan(v, u))
    {
      var f := u.faults;
      ghost var w, e := vault, done;
      var ok := PutKeyBackup(b, f.putRecord);
      if !ok {
        DeleteBlob(b.state, f.stuck);
        ghost var d1 := Deletion(b.state, f.stuck);
        ghost var w1, e1 := vault, done;
        if b.transcript != NO_BLOB {
          DeleteBlob(b.transcript, f.stuck);
          ThenDid(w, e, d1, w1, e1, Deletion(b.transcript, f.stuck));
          ThenDid(v, d, Puts(u), w, e, d1 + Deletion(b.transcript, f.stuck));
        } else {
          assert d1 + [] == d1;
          ThenDid(v, d, Puts(u), w, e, d1);
        }
        return InternalError;
      }
      ghost var put := [PutRecord(b)];
      PutsEffect(v, u);
      LeadsAfter(v, Puts(u), WithBlobs(v, u));
      OneOp(w, PutRecord(b));
      if prevOk {
        ghost var w1, e1 := vault, done;
        var pruned := ArchiveKeyBackup(prev.backup, f.archiving);
        ghost var w2, e2 := vault, done;
        DropPruned(pruned, b, f.stuck);
        ThenDid(w1, e1, [Archive(prev.backup, f.archiving)], w2, e2, Deletions(pruned, b, f.stuck));
        ThenDid(w, e, put, w1, e1, Superseding(v, u));
      }
      assert put + [] == put;
      ThenDid(v, d, Puts(u), w, e, put + Superseding(v, u));
      return NoContent;
    }
  }
}
