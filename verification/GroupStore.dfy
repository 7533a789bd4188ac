/**
 The store's record of a conversation's MLS group, and the compare-and-set that
 serialises commits (`CommitMLSGroup`).
 */
module GroupStore {
  import opened Bytes
  import opened OrderingChain

  type UserId = nat

  datatype Kind = Welcome | Commit | Other

  /** A control message.  Ids, sequence numbers and timestamps are not order-bearing here. */
  datatype Msg = Msg(
    sender: UserId, ciphertext: Octets, kind: Kind, epoch: Int64, group: Octets, chainHash: Octets)

  /**
   The group's recorded state and its log.  `log` has one element per accepted
   compare-and-set: the messages that step appended, in order.
   */
  datatype Group = Group(id: Octets, epoch: Int64, head: Octets, log: seq<seq<Msg>>)

  const NO_GROUP := Group([], 0, [], [])

  /** The commit the chain binds: the first one in a batch. */
  function FirstCommit(msgs: seq<Msg>): (r: Option<Msg>)
    ensures r.Some? ==> r.value.kind.Commit?
  {
    if msgs == [] then None
    else if msgs[0].kind.Commit? then Some(msgs[0])
    else FirstCommit(msgs[1..])
  }

  function CommitCiphertext(msgs: seq<Msg>): Octets {
    match FirstCommit(msgs)
    case Some(m) => m.ciphertext
    case None => []
  }

  function StampOne(m: Msg, hash: Octets): Msg {
    if m.kind.Commit? then m.(chainHash := hash) else m
  }

  function Stamp(msgs: seq<Msg>, hash: Octets): (r: seq<Msg>)
    ensures |r| == |msgs|
    ensures forall i :: 0 <= i < |msgs| ==> r[i] == StampOne(msgs[i], hash)
  {
    if msgs == [] then [] else [StampOne(msgs[0], hash)] + Stamp(msgs[1..], hash)
  }

  /** Stamping moves no message and leaves the first commit first. */
  lemma {:induction false} FirstCommitOfStamped(msgs: seq<Msg>, hash: Octets)
    ensures FirstCommit(msgs).None? ==> FirstCommit(Stamp(msgs, hash)).None?
    ensures FirstCommit(msgs).Some? ==>
      FirstCommit(Stamp(msgs, hash)) == Some(FirstCommit(msgs).value.(chainHash := hash))
  {
    if msgs == [] || msgs[0].kind.Commit? {
    } else {
      FirstCommitOfStamped(msgs[1..], hash);
    }
  }

  /** The compare half: nobody has established the group, or the base is current. */
  predicate Admits(g: Group, id: Octets, base: Int64) {
    (base == 0 && g.id == []) || (g.id == id && g.epoch == base)
  }

  function CasPosition(g: Group, id: Octets, base: Int64, msgs: seq<Msg>): Position {
    Position(g.head, Succ(base), id, CommitCiphertext(msgs))
  }

  /** The set half: group, epoch, head and log move in one step. */
  function Advance(L: Chain, g: Group, id: Octets, base: Int64, msgs: seq<Msg>): Group {
    var head := L(CasPosition(g, id, base, msgs));
    Group(id, Succ(base), head, g.log + [Stamp(msgs, head)])
  }

  /** What a refused or accepted compare-and-set leaves behind. */
  function AfterCas(L: Chain, g: Group, id: Octets, base: Int64, msgs: seq<Msg>): Group {
    if Admits(g, id, base) then Advance(L, g, id, base, msgs) else g
  }

  /** Message `i` is a commit, and none before it is. */
  ghost predicate IsFirstCommit(msgs: seq<Msg>, i: nat) {
    i < |msgs| && msgs[i].kind.Commit? && forall j :: 0 <= j < i ==> !msgs[j].kind.Commit?
  }

  ghost predicate NoCommit(msgs: seq<Msg>) {
    forall m :: m in msgs ==> !m.kind.Commit?
  }

  lemma {:induction false} FirstCommitIsFirst(msgs: seq<Msg>, i: nat)
    ensures IsFirstCommit(msgs, i) ==> FirstCommit(msgs) == Some(msgs[i])
    ensures NoCommit(msgs) ==> FirstCommit(msgs) == None
  {
    if msgs != [] {
      assert msgs == [msgs[0]] + msgs[1..];
      if i > 0 {
        FirstCommitIsFirst(msgs[1..], i - 1);
      } else {
        FirstCommitIsFirst(msgs[1..], 0);
      }
    }
  }

  // ------------------------------------------------------------- the store code

  method FindCommitCiphertext(msgs: seq<Msg>) returns (c: Octets)
    ensures c == CommitCiphertext(msgs)
    ensures forall i: nat | IsFirstCommit(msgs, i) :: c == msgs[i].ciphertext
    ensures NoCommit(msgs) ==> c == []
  {
    forall i: nat
      ensures IsFirstCommit(msgs, i) ==> CommitCiphertext(msgs) == msgs[i].ciphertext
      ensures NoCommit(msgs) ==> CommitCiphertext(msgs) == []
    {
      FirstCommitIsFirst(msgs, i);
    }
    for i := 0 to |msgs|
      invariant FirstCommit(msgs) == FirstCommit(msgs[i..])
    {
      if msgs[i].kind.Commit? {
        return msgs[i].ciphertext;
      }
    }
    return [];
  }

  /** The same messages, but every commit carries this hash. */
  ghost predicate Stamped(msgs: seq<Msg>, hash: Octets, out: seq<Msg>) {
    && |out| == |msgs|
    && forall i :: 0 <= i < |msgs| ==>
      out[i] == if msgs[i].kind.Commit? then msgs[i].(chainHash := hash) else msgs[i]
  }

  method StampChainHash(msgs: seq<Msg>, hash: Octets) returns (out: seq<Msg>)
    ensures out == Stamp(msgs, hash) && Stamped(msgs, hash, out)
  {
    out := msgs;
    for i := 0 to |msgs|
      invariant |out| == |msgs|
      invariant forall j :: 0 <= j < i ==> out[j] == StampOne(msgs[j], hash)
      invariant forall j :: i <= j < |msgs| ==> out[j] == msgs[j]
    {
      if out[i].kind.Commit? {
        out := out[i := out[i].(chainHash := hash)];
      }
    }
    assert out == Stamp(msgs, hash);
  }

  class ConversationRecord {
    var mls: Group

    constructor (mls: Group)
      ensures this.mls == mls
    {
      this.mls := mls;
    }

    /**
     The whole read-decide-write-append of the memory store, under its one lock.  Accepted if
     the group is not set up yet, or stands at the base epoch; then everything moves at once.
     */
    method CommitMLSGroup(H: Hash, id: Octets, base: Int64, msgs: seq<Msg>)
      returns (accepted: bool, stored: seq<Msg>)
      modifies this
      ensures accepted == Admits(old(mls), id, base)
      ensures mls == AfterCas(ChainOf(H), old(mls), id, base, msgs)
      ensures accepted <==> (base == 0 && old(mls.id) == []) || (old(mls.id) == id && old(mls.epoch) == base)
      ensures !accepted ==> mls == old(mls) && stored == []
      ensures accepted ==> mls == Group(id, Succ(base), mls.head, old(mls.log) + [stored]) && Stamped(msgs, mls.head, stored)
      ensures accepted ==> forall i: nat | IsFirstCommit(msgs, i) ::
        mls.head == Link(H, old(mls.head), Succ(base), id, msgs[i].ciphertext)
      ensures accepted && NoCommit(msgs) ==> mls.head == Link(H, old(mls.head), Succ(base), id, [])
    {
      var establishing := base == 0 && mls.id == [];
      var advancing := mls.id == id && mls.epoch == base;
      if !establishing && !advancing {
        return false, [];
      }
      var epoch := Succ(base);
      var commit := FindCommitCiphertext(msgs);
      var hash := ComputeLink(H, mls.head, epoch, id, commit);
      ChainIsLink(H, CasPosition(mls, id, base, msgs));
      stored := StampChainHash(msgs, hash);
      mls := Group(id, epoch, hash, mls.log + [stored]);
      accepted := true;
    }
  }
}
