/** What a replica does with a whole message, tick or request: the part it is for, and
    then everything that has become due.  Nothing that can be done is left undone. */
module StepLaws {
  import opened RaftTypes
  import opened HashChain
  import opened Quorum
  import opened GroupMembership
  import opened BoundedLog
  import opened ReplicaSpec
  import opened ReplicaInvariant
  import opened ReplicaLaws
  import opened AppendLaws

  // ------------------------------------------------------ what follows every step

  /** A follower has nothing more to do. */
  lemma FollowerRests(r: Replica, ok: bool)
    requires r.role == Follower
    ensures ChangeStateAndSend(r, ok) == r
  {
  }

  /** Terms and votes stay, and what was queued stays queued. */
  predicate Continues(r: Replica, s: Replica) {
    s.me == r.me && s.group == r.group && s.superMajority == r.superMajority && s.term == r.term && s.votedFor == r.votedFor && r.outbox <= s.outbox
  }

  lemma HandoverKeeps(r: Replica, full: seq<Entry>, first: Membership)
    requires ReplicaOk(r, full, first)
    ensures ReplicaOk(TryToRelinquish(r), full, first) && Continues(r, TryToRelinquish(r))
  {
    hide Successors;
    RoleChangeKeeps(r, TryToRelinquish(r), full, first);
  }

  /** No candidate is left with a quorum of votes. */
  ghost predicate NoneElected(r: Replica, full: seq<Entry>, first: Membership) {
    r.role == Candidate ==> |r.votes| < QuorumSize(|GroupOf(full, first).voting|, r.superMajority)
  }

  /** A leader has promised what a quorum stores and committed what a quorum has promised. */
  ghost predicate AllAdvanced(r: Replica, full: seq<Entry>, first: Membership) {
    r.role == Leader ==>
      var voters := GroupOf(full, first).voting;
      var quorum := QuorumSize(|voters|, r.superMajority);
      && (forall k: nat | |Storing(r, full, voters, k)| >= quorum :: k <= r.promiseIdx)
      && (forall k: nat | |Promising(r, r.promiseIdx, voters, k)| >= quorum :: k <= r.commitIdx)
  }

  /** No follower is due a request, and no one is waiting to be handed over to. */
  ghost predicate AllSent(r: Replica, full: seq<Entry>, first: Membership) {
    r.role == Leader ==>
      && (forall p | p in r.followers :: !IsDue(r, full, p))
      && (r.relinquishing ==> forall p | p in GroupOf(full, first).voting && p in r.followers :: r.followers[p].matchIdx != |full|)
  }

  lemma AdvancedAll(r: Replica, full: seq<Entry>, first: Membership)
    requires ReplicaOk(r, full, first)
    ensures AllAdvanced(MaybeAdvanceCommitIndex(r), full, first)
  {
    hide ReplicaOk, MaybeAdvanceCommitIndex, GroupOf, QuorumSize;
    var s := MaybeAdvanceCommitIndex(r);
    AdvanceKeeps(r, full, first);
    if r.role == Leader {
      AdvanceTells(r, full, first);
      var voters := GroupOf(full, first).voting;
      forall k: nat ensures Storing(s, full, voters, k) == Storing(r, full, voters, k)
        && Promising(s, s.promiseIdx, voters, k) == Promising(r, s.promiseIdx, voters, k)
      {
        SameCounts(r, s, full, voters, k);
      }
      forall k: nat
        ensures |Storing(s, full, voters, k)| >= QuorumSize(|voters|, r.superMajority) ==> k <= s.promiseIdx
        ensures |Promising(s, s.promiseIdx, voters, k)| >= QuorumSize(|voters|, r.superMajority) ==> k <= s.commitIdx
      {
        AdvanceMeans(r, full, first, k);
      }
    }
  }

  lemma SameCounts(r: Replica, s: Replica, full: seq<Entry>, voters: set<PeerId>, k: nat)
    requires s.me == r.me && s.followers.Keys == r.followers.Keys
    requires forall p | p in r.followers :: s.followers[p].matchIdx == r.followers[p].matchIdx && s.followers[p].promiseIdx == r.followers[p].promiseIdx
    ensures Storing(s, full, voters, k) == Storing(r, full, voters, k)
    ensures Promising(s, s.promiseIdx, voters, k) == Promising(r, s.promiseIdx, voters, k)
  {
  }

  lemma ElectionStage(r: Replica, full: seq<Entry>, first: Membership) returns (full': seq<Entry>)
    requires ReplicaOk(r, full, first)
    ensures var s := MaybeBecomeLeader(r);
            ReplicaOk(s, full', first) && full <= full' && Continues(r, s) && NoneElected(s, full', first)
  {
    hide ReplicaOk, MaybeBecomeLeader, Loggable, LoggedAs, QuorumSize, GroupOf;
    LeadershipMeans(r, full, first);
    var a := MaybeBecomeLeader(r);
    full' := if r.role == Candidate && a.role == Leader && Loggable(r, full, first, Noop) then full + [LoggedAs(r, full, Noop)] else full;
  }

  lemma AdvanceStage(r: Replica, full: seq<Entry>, first: Membership)
    requires ReplicaOk(r, full, first) && NoneElected(r, full, first)
    ensures var s := MaybeAdvanceCommitIndex(r);
            ReplicaOk(s, full, first) && Continues(r, s) && NoneElected(s, full, first) && AllAdvanced(s, full, first)
  {
    hide ReplicaOk, MaybeAdvanceCommitIndex, AllAdvanced;
    AdvanceKeeps(r, full, first);
    AdvancedAll(r, full, first);
  }

  lemma SendStage(r: Replica, full: seq<Entry>, first: Membership)
    requires ReplicaOk(r, full, first) && NoneElected(r, full, first) && AllAdvanced(r, full, first)
    ensures var s := AppendEntriesToAll(r);
            && ReplicaOk(s, full, first) && Continues(r, s) && NoneElected(s, full, first) && AllAdvanced(s, full, first)
            && (s.role == Leader ==> forall p | p in s.followers :: !IsDue(s, full, p))
  {
    hide ReplicaOk, AppendEntriesToAll, AppendRequestFor, GroupOf, QuorumSize;
    SendAllKeeps(r, full, first);
    if r.role == Leader {
      SendingMeans(r, full, first);
      var s, voters := AppendEntriesToAll(r), GroupOf(full, first).voting;
      forall k: nat ensures Storing(s, full, voters, k) == Storing(r, full, voters, k)
        && Promising(s, s.promiseIdx, voters, k) == Promising(r, s.promiseIdx, voters, k)
      {
        SameCounts(r, s, full, voters, k);
      }
    } else {
      NotLeading(r);
    }
  }

  lemma NotLeading(r: Replica)
    requires r.role != Leader
    ensures AppendEntriesToAll(r) == r
  {
  }

  lemma HandoverStage(r: Replica, full: seq<Entry>, first: Membership)
    requires ReplicaOk(r, full, first) && NoneElected(r, full, first) && AllAdvanced(r, full, first)
    requires r.role == Leader ==> forall p | p in r.followers :: !IsDue(r, full, p)
    ensures var s := TryToRelinquish(r);
            && ReplicaOk(s, full, first) && Continues(r, s)
            && NoneElected(s, full, first) && AllAdvanced(s, full, first) && AllSent(s, full, first)
  {
    hide ReplicaOk, TryToRelinquish, QuorumSize, GroupOf, IsDue;
    HandoverKeeps(r, full, first);
    HandoverMeans(r, full, first);
    var ready := set p | p in GroupOf(full, first).voting && p in r.followers && r.followers[p].matchIdx == |full|;
    if ready == {} {
      forall p | p in GroupOf(full, first).voting && p in r.followers ensures r.followers[p].matchIdx != |full| {
        assert p !in ready;
      }
    }
  }

  /** Whatever a step was for, nothing is left undone after it: no one is left elected
      without leading, nothing is left to promise or to commit, no request is left unsent. */
  lemma NothingLeft(r: Replica, full: seq<Entry>, first: Membership) returns (full': seq<Entry>)
    requires ReplicaOk(r, full, first)
    ensures var s := ChangeStateAndSend(r, true);
            && ReplicaOk(s, full', first) && full <= full' && Continues(r, s)
            && NoneElected(s, full', first) && AllAdvanced(s, full', first) && AllSent(s, full', first)
  {
    hide ReplicaOk, MaybeBecomeLeader, MaybeAdvanceCommitIndex, AppendEntriesToAll, TryToRelinquish,
      NoneElected, AllAdvanced, AllSent, Continues, IsDue;
    full' := ElectionStage(r, full, first);
    var a := MaybeBecomeLeader(r);
    AdvanceStage(a, full', first);
    var b := MaybeAdvanceCommitIndex(a);
    SendStage(b, full', first);
    var d := AppendEntriesToAll(b);
    HandoverStage(d, full', first);
    ContinuesTrans(r, a, b);
    ContinuesTrans(r, b, d);
    ContinuesTrans(r, d, TryToRelinquish(d));
  }

  lemma ContinuesTrans(r: Replica, s: Replica, t: Replica)
    requires Continues(r, s) && Continues(s, t)
    ensures Continues(r, t)
  {
  }

  // ------------------------------------------------------------- single messages

  lemma TermKeeps(r: Replica, full: seq<Entry>, first: Membership, term: nat)
    requires ReplicaOk(r, full, first)
    ensures ReplicaOk(UpdateTerm(r, term), full, first)
  {
    RoleChangeKeeps(r, UpdateTerm(r, term), full, first);
  }

  lemma Admitted(r: Replica, full: seq<Entry>, first: Membership, msg: RaftMessage, from: PeerId, ok: bool, ok': bool)
    requires ReplicaOk(r, full, first)
    ensures Receive(r, msg, from, ok, ok') ==
            if Admissible(r, full, first, msg, from) then ChangeStateAndSend(Dispatch(UpdateTerm(r, msg.term), msg, from, ok), ok') else r
  {
    hide ReplicaOk, Admissible, ValidateReceived, Dispatch, ChangeStateAndSend;
    AdmissibleMeans(r, full, first, msg, from);
  }

  /** A message that is not let in changes nothing. */
  lemma Ignored(r: Replica, full: seq<Entry>, first: Membership, msg: RaftMessage, from: PeerId, ok: bool, ok': bool)
    requires ReplicaOk(r, full, first) && !Admissible(r, full, first, msg, from)
    ensures Receive(r, msg, from, ok, ok') == r
  {
    hide ReplicaOk, Admissible;
    Admitted(r, full, first, msg, from, ok, ok');
  }

  /** A request for a vote is answered, in the later of the two terms, and granted exactly
      if it is of that term, no vote in it has gone to another, and the candidate's log is
      at least as far. */
  lemma VoteRequested(r: Replica, full: seq<Entry>, first: Membership, msg: RaftMessage, from: PeerId)
    requires ReplicaOk(r, full, first) && msg.inner.VoteRequest? && Admissible(r, full, first, msg, from)
    ensures var s, m, t := Receive(r, msg, from, true, true), msg.inner, Max(r.term, msg.term);
            var granted := && msg.term == t && (msg.term > r.term || r.votedFor == None || r.votedFor == Some(from))
                           && AtLeast(m.lastTerm, m.lastIdx, LastTermOf(full), |full|);
            && s.term == t && Sendable(Some(from), RaftMessage(r.group, t, VoteResponse(granted))) in s.outbox
            && s.votedFor == if granted then Some(from) else if msg.term > r.term then None else r.votedFor
  {
    hide ReplicaOk, Admissible, HandleVoteRequest, ChangeStateAndSend, LastTermOf;
    Admitted(r, full, first, msg, from, true, true);
    TermKeeps(r, full, first, msg.term);
    var u := UpdateTerm(r, msg.term);
    VoteMeans(u, full, first, msg.term, msg.inner, from);
    var v := HandleVoteRequest(u, msg.term, msg.inner, from);
    VotedKeeps(u, v, full, first);
    var full' := NothingLeft(v, full, first);
  }

  lemma VotedKeeps(u: Replica, v: Replica, full: seq<Entry>, first: Membership)
    requires ReplicaOk(u, full, first) && v == u.(votedFor := v.votedFor, outbox := v.outbox)
    ensures ReplicaOk(v, full, first)
  {
    RoleChangeKeeps(u, v, full, first);
  }

  /** A vote granted to a candidate in its term by a voter makes it leader exactly if a
      quorum has then voted for it. */
  lemma VoteReceived(r: Replica, full: seq<Entry>, first: Membership, msg: RaftMessage, from: PeerId)
    requires ReplicaOk(r, full, first) && msg.inner == VoteResponse(true) && Admissible(r, full, first, msg, from)
    requires r.role == Candidate && msg.term == r.term && from in GroupOf(full, first).voting
    ensures var s := Receive(r, msg, from, true, true);
            && s.term == r.term
            && if |r.votes + {from}| >= QuorumSize(|GroupOf(full, first).voting|, r.superMajority)
               then s.role == Leader else s.role == Candidate && s.votes == r.votes + {from}
  {
    hide ReplicaOk, Admissible, HandleVoteResponse, MaybeBecomeLeader, MaybeAdvanceCommitIndex, AppendEntriesToAll, TryToRelinquish,
      GroupOf, QuorumSize, Loggable, LoggedAs;
    Admitted(r, full, first, msg, from, true, true);
    VoteCounts(r, full, first, msg.term, msg.inner, from);
    var v := r.(votes := r.votes + {from});
    CountedKeeps(r, full, first, from);
    LeadershipMeans(v, full, first);
    var full' := ElectionStage(v, full, first);
    var a := MaybeBecomeLeader(v);
    AdvanceKeeps(a, full', first);
    var b := MaybeAdvanceCommitIndex(a);
    SendFrame(b);
    HandoverFrame(AppendEntriesToAll(b));
  }

  lemma CountedKeeps(r: Replica, full: seq<Entry>, first: Membership, from: PeerId)
    requires ReplicaOk(r, full, first) && r.role == Candidate && from in GroupOf(full, first).voting
    ensures ReplicaOk(r.(votes := r.votes + {from}), full, first)
  {
    LogEnds(r, full, first);
    RoleChangeKeeps(r, r.(votes := r.votes + {from}), full, first);
  }

  lemma SendFrame(r: Replica)
    ensures var s := AppendEntriesToAll(r); s == r.(followers := s.followers, outbox := s.outbox)
  {
  }

  lemma HandoverFrame(r: Replica)
    requires r.role != Leader || !r.relinquishing
    ensures TryToRelinquish(r) == r
  {
  }

  /** An append request of a term that is not past, at a replica that does not lead that
      term, and that follows on the replica's log: the entries are stored, the indexes move
      up, and the leader is answered, all as far as the entries could be stored. */
  lemma AppendReceived(r: Replica, full: seq<Entry>, first: Membership, msg: RaftMessage, from: PeerId)
    returns (full': seq<Entry>, last: nat)
    requires ReplicaOk(r, full, first) && msg.inner.AppendRequest? && Admissible(r, full, first, msg, from)
    requires msg.term >= r.term && (r.role == Leader ==> msg.term > r.term) && FollowsOn(r, full, msg.inner)
    ensures StoredUpTo(r, full, msg.inner.prevIdx, msg.inner.entries, full', last)
    ensures var s, m := Receive(r, msg, from, true, true), msg.inner;
            && ReplicaOk(s, full', first) && s.role == Follower && s.knownLeader == Some(from) && s.term == msg.term
            && s.commitIdx == Max(r.commitIdx, Min(m.leaderCommit, last))
            && s.promiseIdx == Max(r.promiseIdx, Min(m.leaderPromise, last))
            && Sendable(Some(from), RaftMessage(r.group, msg.term,
                 AppendResponse(true, last, s.log.HashAt(last), Min(s.promiseIdx, last), |full'|))) in s.outbox
  {
    hide ReplicaOk, HandleAppendRequest, StoredUpTo;
    AdmittedRequest(r, full, first, msg, from);
    Admitted(r, full, first, msg, from, true, true);
    hide Admissible;
    TermKeeps(r, full, first, msg.term);
    var u := UpdateTerm(r, msg.term);
    full', last := AppendRequestMeans(u, full, first, msg.inner, from);
    SameStored(r, u, full, msg.inner.prevIdx, msg.inner.entries, full', last);
    FollowerRests(HandleAppendRequest(u, u.term, msg.inner, from, true), true);
  }

  lemma AdmittedRequest(r: Replica, full: seq<Entry>, first: Membership, msg: RaftMessage, from: PeerId)
    requires ReplicaOk(r, full, first) && msg.inner.AppendRequest? && Admissible(r, full, first, msg, from)
    ensures var m := msg.inner; m.leaderCommit <= m.leaderPromise && (m.entries != [] ==> r.log.OldestStored() <= m.prevIdx + 1)
  {
    var m := msg.inner;
    if m.entries != [] { assert Agrees(r, full, m.prevIdx + 0 + 1, m.entries[0].term, m.entries[0].hash, true); }
  }

  /** A leader that learns of more stored entries promises and commits at once whatever a
      quorum then allows. */
  lemma ResponseReceived(r: Replica, full: seq<Entry>, first: Membership, msg: RaftMessage, from: PeerId) returns (full': seq<Entry>)
    requires ReplicaOk(r, full, first) && msg.inner.AppendResponse? && Admissible(r, full, first, msg, from)
    requires r.role == Leader && msg.term == r.term && from in r.followers && msg.inner.success
    requires PromiseFits(r, msg.term, msg.inner, from)
    ensures var s, m := Receive(r, msg, from, true, true), msg.inner;
            && ReplicaOk(s, full', first) && AllAdvanced(s, full', first) && AllSent(s, full', first)
            && (s.role == Leader ==>
                  && from in s.followers && s.followers[from].matchIdx == Max(r.followers[from].matchIdx, m.matchIdx)
                  && s.followers[from].promiseIdx == Max(r.followers[from].promiseIdx, m.promiseIdx))
  {
    hide ReplicaOk, HandleAppendResponse, AllAdvanced, AllSent, MaybeBecomeLeader, MaybeAdvanceCommitIndex, AppendEntriesToAll, TryToRelinquish;
    AdmittedResponse(r, full, first, msg, from);
    Admitted(r, full, first, msg, from, true, true);
    hide Admissible;
    ResponseKeeps(r, full, first, msg.term, msg.inner, from);
    ResponseMeans(r, msg.term, msg.inner, from);
    var d := HandleAppendResponse(r, msg.term, msg.inner, from);
    full' := NothingLeft(d, full, first);
    FollowersCarried(d, full, first);
  }

  lemma AdmittedResponse(r: Replica, full: seq<Entry>, first: Membership, msg: RaftMessage, from: PeerId)
    requires msg.inner.AppendResponse? && Admissible(r, full, first, msg, from)
    ensures msg.inner.matchIdx <= |full|
  {
  }

  /** What a leader knows of its followers it still knows when it has sent. */
  lemma FollowersCarried(r: Replica, full: seq<Entry>, first: Membership)
    requires ReplicaOk(r, full, first) && r.role == Leader
    ensures var s := ChangeStateAndSend(r, true);
            s.role == Leader ==> s.followers.Keys == r.followers.Keys && forall p | p in r.followers ::
              s.followers[p].matchIdx == r.followers[p].matchIdx && s.followers[p].promiseIdx == r.followers[p].promiseIdx
  {
    hide ReplicaOk, MaybeAdvanceCommitIndex, AppendEntriesToAll, TryToRelinquish;
    NotStanding(r);
    AdvanceKeeps(r, full, first);
    AdvanceTells(r, full, first);
    var b := MaybeAdvanceCommitIndex(r);
    SendingMeans(b, full, first);
    HandoverMeans(AppendEntriesToAll(b), full, first) by { SendAllKeeps(b, full, first); }
  }

  lemma NotStanding(r: Replica)
    requires r.role != Candidate
    ensures MaybeBecomeLeader(r) == r
  {
  }

  /** A voter whose timer runs out stands in the next term. */
  lemma Stands(r: Replica, full: seq<Entry>, first: Membership)
    requires ReplicaOk(r, full, first) && r.role != Leader && r.me in GroupOf(full, first).voting
    ensures var s := TimerTick(r, true, true);
            && s.term == r.term + 1 && s.votedFor == Some(r.me)
            && (GroupOf(full, first).all != {r.me} ==>
                  Sendable(None, RaftMessage(r.group, r.term + 1, VoteRequest(|full|, LastTermOf(full), HashOf(full, |full|)))) in s.outbox)
            && (QuorumSize(|GroupOf(full, first).voting|, r.superMajority) <= 1 <==> s.role == Leader)
  {
    hide ReplicaOk, ElectionTimeout, GroupOf, QuorumSize, MaybeBecomeLeader, MaybeAdvanceCommitIndex, AppendEntriesToAll, TryToRelinquish,
      Loggable, LoggedAs, LastTermOf, HashOf;
    ElectionMeans(r, full, first);
    ElectionKeeps(r, full, first);
    var c := ElectionTimeout(r);
    var full' := NothingLeft(c, full, first);
    LeadershipMeans(c, full, first);
    var full'' := ElectionStage(c, full, first);
    var a := MaybeBecomeLeader(c);
    AdvanceKeeps(a, full'', first);
    SendFrame(MaybeAdvanceCommitIndex(a));
    HandoverFrame(AppendEntriesToAll(MaybeAdvanceCommitIndex(a)));
  }

  /** Being told to time out is a timer that runs out, unless the replica leads or the
      message is of an earlier term. */
  lemma ToldToStand(r: Replica, full: seq<Entry>, first: Membership, msg: RaftMessage, from: PeerId)
    requires ReplicaOk(r, full, first) && msg.inner.TimeoutNow? && Admissible(r, full, first, msg, from)
    ensures var u := UpdateTerm(r, msg.term);
            Receive(r, msg, from, true, true) == TimerTick(u, msg.term >= r.term && u.role != Leader, true)
  {
    hide ReplicaOk, Admissible, ChangeStateAndSend;
    Admitted(r, full, first, msg, from, true, true);
  }

  /** When a leader's timer runs out, every follower without a request under way is sent
      one, if the entry before its next one is still stored. */
  lemma HeartbeatsSent(r: Replica, full: seq<Entry>, first: Membership, p: PeerId)
    requires ReplicaOk(r, full, first) && r.role == Leader && p in r.followers && r.followers[p].inflight == None
    requires r.followers[p].nextIdx == 1 || (r.log.oldest < r.followers[p].nextIdx && r.followers[p].nextIdx <= |full| + 1)
    ensures var s := TimerTick(r, true, true);
            exists m: Message :: m.AppendRequest? && Sendable(Some(p), RaftMessage(r.group, r.term, m)) in s.outbox
  {
    hide ReplicaOk, MaybeAdvanceCommitIndex, AppendEntriesToAll, TryToRelinquish, AppendRequestFor;
    HeartbeatsKeep(r, full, first);
    var t := Heartbeats(r);
    NotStanding(t);
    AdvanceKeeps(t, full, first);
    AdvanceTells(t, full, first);
    var b := MaybeAdvanceCommitIndex(t);
    SendingMeans(b, full, first);
    assert IsDue(b, full, p);
    var d := AppendEntriesToAll(b);
    SendAllKeeps(b, full, first);
    HandoverKeeps(d, full, first);
    var m := AppendRequestFor(b, b.followers[p]);
    assert Sendable(Some(p), RaftMessage(r.group, r.term, m)) in d.outbox;
  }

  /** A request that is accepted is in the log, and is sent on at once. */
  lemma RequestTaken(r: Replica, full: seq<Entry>, first: Membership, p: Payload) returns (full': seq<Entry>)
    requires ReplicaOk(r, full, first)
    ensures var (s, err) := LogRequest(r, p, true);
            && ReplicaOk(s, full', first)
            && (err == NoError <==> && CheckRequest(r, p) == NoError && r.role == Leader && !r.relinquishing && Loggable(r, full, first, p))
            && (err == NoError ==> full + [LoggedAs(r, full, p)] == full' && AllAdvanced(s, full', first) && AllSent(s, full', first))
            && (err != NoError && r.role != Candidate ==> full' == full)
  {
    hide ReplicaOk, ClientRequest, Loggable, LoggedAs, AllAdvanced, AllSent, MaybeBecomeLeader, MaybeAdvanceCommitIndex, AppendEntriesToAll, TryToRelinquish, CheckRequest;
    full' := full;
    if CheckRequest(r, p) == NoError {
      AcceptedKeepsVote(r, full, first, p);
      RequestLogged(r, full, first, p);
      var (c, err) := ClientRequest(r, p);
      var logged := if err == NoError then full + [LoggedAs(r, full, p)] else full;
      full' := NothingLeft(c, logged, first);
      if c.role != Candidate { LogKept(c, logged, first, full'); }
    }
  }

  lemma AcceptedKeepsVote(r: Replica, full: seq<Entry>, first: Membership, p: Payload)
    requires ReplicaOk(r, full, first) && CheckRequest(r, p) == NoError
    ensures r.role == Leader ==> KeepsVote(r.me, Entry(r.term, p, Absent))
  {
    hide ReplicaOk;
  }

  /** Only a candidate that becomes leader logs anything of its own accord. */
  lemma LogKept(r: Replica, full: seq<Entry>, first: Membership, full': seq<Entry>)
    requires ReplicaOk(r, full, first) && ReplicaOk(ChangeStateAndSend(r, true), full', first) && full <= full' && r.role != Candidate
    ensures full' == full
  {
    NotStanding(r);
    AdvanceKeeps(r, full, first);
    var b := MaybeAdvanceCommitIndex(r);
    SendFrame(b);
    LogEnds(r, full, first);
    LogEnds(ChangeStateAndSend(r, true), full', first);
    hide ReplicaOk, MaybeBecomeLeader, MaybeAdvanceCommitIndex, AppendEntriesToAll;
  }

  /** A leader asked to step down has handed over when the call ends, or is waiting to. */
  lemma SteppingDown(r: Replica, full: seq<Entry>, first: Membership)
    requires ReplicaOk(r, full, first) && r.role == Leader
    ensures var s := RelinquishLeadership(r, true); s.role == Follower || (s.role == Leader && s.relinquishing) || s == r
    ensures !r.relinquishing ==> RelinquishLeadership(r, true) != r
  {
    hide ReplicaOk, ClientRequest, MaybeAdvanceCommitIndex, AppendEntriesToAll, TryToRelinquish, Loggable, LoggedAs;
    if !r.relinquishing {
      RequestLogged(r, full, first, Noop);
      var c := ClientRequest(r, Noop).0.(relinquishing := true);
      var logged := if Loggable(r, full, first, Noop) then full + [LoggedAs(r, full, Noop)] else full;
      RoleChangeKeeps(ClientRequest(r, Noop).0, c, logged, first) by { RelinquishingRole(ClientRequest(r, Noop).0, logged, first); }
      NotStanding(c);
      AdvanceKeeps(c, logged, first);
      var b := MaybeAdvanceCommitIndex(c);
      SendFrame(b);
      SendAllKeeps(b, logged, first);
      HandoverMeans(AppendEntriesToAll(b), logged, first);
    }
  }

  lemma RelinquishingRole(r: Replica, full: seq<Entry>, first: Membership)
    requires ReplicaOk(r, full, first)
    ensures RoleOk(r.(relinquishing := true), |full|)
  {
  }
}
