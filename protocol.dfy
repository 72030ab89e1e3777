/**
 * The election protocol of a simulated cluster (server/algo.go).
 *
 * Each process keeps an epoch (a logical clock), the epoch of its last vote,
 * the frequency it has adopted (-1 while unknown) with the epoch of that
 * adoption, and, once it has run for election, its candidacy. Processes talk
 * through three kinds of message: "heartbeat" spreads an adopted frequency,
 * "elect_me" asks for a vote, "you_have_my_vote" grants one. A router
 * drains the shared outbound channel and drops or delivers each message
 * according to the sender's lag and packet-loss row for the recipient.
 *
 * The shared outbound channel is each process's `outbox` (what it has sent)
 * and its inbound channel is `inbox`; the clock and every random draw are
 * parameters.
 */
module Protocol {
  import opened Wrappers

  /** The cluster size the simulation is built for. */
  const NumProcesses: int := 3
  /** How many messages the router handles before it returns. */
  const NumMessages: int := 100

  /** A span of time in nanoseconds, as Go's time.Duration. */
  type Duration = int
  const Second: Duration := 1_000_000_000
  const Minute: Duration := 60 * Second

  /** A wall-clock reading in nanoseconds. */
  type Time = int

  const HeartbeatKind: string := "heartbeat"
  const ElectMeKind: string := "elect_me"
  const VoteKind: string := "you_have_my_vote"

  /**
   * One datagram. `lag` and `packetloss` are the sender's link settings
   * towards `to`, sampled when the message is made.
   */
  datatype Message = Message(
    kind: string,
    from: int,
    to: int,
    processEpoch: int,
    frequency: int,
    frequencyEpoch: int,
    lag: Duration,
    packetloss: int)

  /** An out-of-band command; None leaves the property alone. */
  datatype Force = Force(election: Option<bool>, lag: Option<Duration>, packetloss: Option<int>)

  /** A candidacy: the proposed value, its epoch, the tally and the quorum denominator. */
  datatype Election = Election(newFrequency: int, frequencyEpoch: int, numVotes: int, numProcesses: int)

  /** The source that wakes the select statement of one loop iteration. */
  datatype Event = InboxReady | TickerFired(peer: int) | GodSent(force: Force)

  function Max(a: int, b: int): int
  {
    if a < b then b else a
  }

  /** A process's row of the fault matrix: lag and loss towards each peer. */
  class NetworkState {
    const lag: array<Duration>
    // the share of packets lost on the link, from 0 (none) to 100 (every one)
    const packetloss: array<int>

    /** NewHealthyNetwork: no lag and no loss towards any of the peers. */
    constructor Healthy(numProcesses: nat)
      ensures fresh(lag) && fresh(packetloss) && lag != packetloss
      ensures lag[..] == seq(numProcesses, _ => 0)
      ensures packetloss[..] == seq(numProcesses, _ => 0)
    {
      lag := new Duration[numProcesses](_ => 0);
      packetloss := new int[numProcesses](_ => 0);
    }
  }

  /** Strictly increasing: no value occurs twice. */
  predicate Increasing(s: seq<int>)
  {
    forall i, j :: 0 <= i < j < |s| ==> s[i] < s[j]
  }

  lemma AppendAssoc<T>(a: seq<T>, b: seq<T>, c: seq<T>)
    ensures a + (b + c) == (a + b) + c
  {
  }

  /** The ids below `n` other than `self`, in increasing order. */
  function PeersBelow(self: int, n: nat): (peers: seq<int>)
    requires n <= NumProcesses
    ensures |peers| == if 0 <= self < n then n - 1 else n
    ensures InCluster(peers)
  {
    if n == 0 then []
    else PeersBelow(self, n - 1) + (if n - 1 == self then [] else [n - 1])
  }

  /** A process never lists itself among its peers. */
  lemma {:induction false} PeersBelowExcludeSelf(self: int, n: nat)
    requires n <= NumProcesses
    ensures forall k :: 0 <= k < |PeersBelow(self, n)| ==> PeersBelow(self, n)[k] != self
  {
    if n > 0 {
      PeersBelowExcludeSelf(self, n - 1);
    }
  }

  /** The peers are below `n` and come in increasing order, so none is listed twice. */
  lemma {:induction false} PeersBelowIncreasing(self: int, n: nat)
    requires n <= NumProcesses
    ensures forall k :: 0 <= k < |PeersBelow(self, n)| ==> PeersBelow(self, n)[k] < n
    ensures Increasing(PeersBelow(self, n))
  {
    if n > 0 {
      PeersBelowIncreasing(self, n - 1);
    }
  }

  /** Every id below `n` other than `self` is among the peers. */
  lemma {:induction false} PeersBelowComplete(self: int, n: nat)
    requires n <= NumProcesses
    ensures forall p :: 0 <= p < n && p != self ==> p in PeersBelow(self, n)
  {
    if n > 0 {
      PeersBelowComplete(self, n - 1);
    }
  }

  /** Everyone a process broadcasts to: every id of the cluster but its own. */
  function Peers(self: int): seq<int>
  {
    PeersBelow(self, NumProcesses)
  }

  /** What a process puts into every message it makes: its id, its epoch and its network row. */
  datatype Sender = Sender(id: int, epoch: int, lag: seq<Duration>, packetloss: seq<int>)
  {
    /** The sender's row has an entry for every process of the cluster. */
    predicate Wired()
    {
      |lag| == NumProcesses && |packetloss| == NumProcesses
    }
  }

  /** A message from `s` to `to` of the given kind and frequency, stamped with the sender's epoch and its link settings towards `to`. */
  function Stamp(s: Sender, to: int, kind: string, frequency: int, frequencyEpoch: int): Message
    requires s.Wired() && 0 <= to < NumProcesses
  {
    Message(kind, s.id, to, s.epoch, frequency, frequencyEpoch, s.lag[to], s.packetloss[to])
  }

  predicate InCluster(ids: seq<int>)
  {
    forall k :: 0 <= k < |ids| ==> 0 <= ids[k] < NumProcesses
  }

  /** One stamped message to each of `peers`, in order. */
  function Broadcast(s: Sender, peers: seq<int>, kind: string, frequency: int, frequencyEpoch: int): (ms: seq<Message>)
    requires s.Wired() && InCluster(peers)
    ensures |ms| == |peers|
  {
    if peers == [] then []
    else
      Broadcast(s, peers[..|peers| - 1], kind, frequency, frequencyEpoch)
      + [Stamp(s, peers[|peers| - 1], kind, frequency, frequencyEpoch)]
  }

  /** Message k of a broadcast goes to peer k: exactly one message per peer, in the peers' order. */
  lemma {:induction false} BroadcastAt(s: Sender, peers: seq<int>, kind: string, frequency: int, frequencyEpoch: int)
    requires s.Wired() && InCluster(peers)
    ensures forall k :: 0 <= k < |peers| ==>
      Broadcast(s, peers, kind, frequency, frequencyEpoch)[k] == Stamp(s, peers[k], kind, frequency, frequencyEpoch)
  {
    if peers != [] {
      BroadcastAt(s, peers[..|peers| - 1], kind, frequency, frequencyEpoch);
    }
  }

  lemma BroadcastSnoc(s: Sender, peers: seq<int>, to: int, kind: string, frequency: int, frequencyEpoch: int)
    requires s.Wired() && InCluster(peers) && 0 <= to < NumProcesses
    ensures Broadcast(s, peers + [to], kind, frequency, frequencyEpoch)
            == Broadcast(s, peers, kind, frequency, frequencyEpoch) + [Stamp(s, to, kind, frequency, frequencyEpoch)]
  {
    assert (peers + [to])[..|peers|] == peers;
  }

  /** The broadcast to the peers below `n + 1` extends the broadcast to the peers below `n` by at most one message. */
  // `next` is n + 1, returned so that loops count with it and the solver need not relate n + 1 to the broadcast itself
  lemma BroadcastStep(s: Sender, n: nat, kind: string, frequency: int, frequencyEpoch: int) returns (next: nat)
    requires s.Wired() && n < NumProcesses
    ensures next == n + 1
    ensures n == s.id ==>
      Broadcast(s, PeersBelow(s.id, next), kind, frequency, frequencyEpoch)
      == Broadcast(s, PeersBelow(s.id, n), kind, frequency, frequencyEpoch)
    ensures n != s.id ==>
      Broadcast(s, PeersBelow(s.id, next), kind, frequency, frequencyEpoch)
      == Broadcast(s, PeersBelow(s.id, n), kind, frequency, frequencyEpoch) + [Stamp(s, n, kind, frequency, frequencyEpoch)]
  {
    next := n + 1;
    if n == s.id {
      assert PeersBelow(s.id, n + 1) == PeersBelow(s.id, n);
    } else {
      BroadcastSnoc(s, PeersBelow(s.id, n), n, kind, frequency, frequencyEpoch);
    }
  }

  class Process {
    const id: int
    var currentEpoch: int
    var frequency: int
    var frequencyEpoch: int
    var lastVoteEpoch: int
    var nextElection: Time
    var election: Option<Election>
    var inbox: seq<Message>
    var outbox: seq<Message>
    var electionForced: bool
    const network: NetworkState
    /** The epochs in which this process has cast a vote, itself included, oldest first. */
    ghost var votes: seq<int>

    /** The process's network row has an entry for every process of the cluster. */
    predicate Wired()
    {
      network.lag.Length == NumProcesses && network.packetloss.Length == NumProcesses
    }

    /**
     * The protocol invariant: a process never votes ahead of its epoch,
     * `lastVoteEpoch` is the epoch of its latest vote, and the epochs of its
     * votes strictly increase, so it votes at most once per epoch.
     */
    ghost predicate Valid()
      reads this`currentEpoch, this`lastVoteEpoch, this`votes
    {
      && Wired()
      && lastVoteEpoch <= currentEpoch
      && (votes == [] ==> lastVoteEpoch == 0)
      && (votes != [] ==> votes[|votes| - 1] == lastVoteEpoch)
      && Increasing(votes)
    }

    /** Casting a vote in the current epoch, when none was cast in it yet, keeps the invariant. */
    lemma VoteKeepsValid(epoch: int)
      requires Valid() && lastVoteEpoch < epoch
      ensures Increasing(votes + [epoch])
    {
      var v := votes + [epoch];
      forall i, j | 0 <= i < j < |v|
        ensures v[i] < v[j]
      {
        if j == |v| - 1 && i < |votes| {
          assert votes[i] <= votes[|votes| - 1];
        }
      }
    }

    /** The protocol state NewProcess leaves a process in, when created at time `now`. */
    predicate Initial(now: Time)
      reads this
    {
      && currentEpoch == 0 && frequency == -1 && frequencyEpoch == 0 && lastVoteEpoch == 0
      && election == None && !electionForced && inbox == [] && outbox == []
      && nextElection == now + (if id > 0 then Minute else 0) as int
    }

    /** NewProcess: epoch 0, no frequency yet, the first election due at once for process 0 and a minute later for the others. */
    constructor NewProcess(id: int, now: Time)
      ensures Valid()
      ensures fresh(network) && fresh(network.lag) && fresh(network.packetloss)
      ensures network.lag != network.packetloss
      ensures this.id == id && Initial(now)
      ensures network.lag[..] == seq(NumProcesses, _ => 0)
      ensures network.packetloss[..] == seq(NumProcesses, _ => 0)
    {
      this.id := id;
      currentEpoch := 0;
      frequencyEpoch := 0;
      frequency := -1;
      lastVoteEpoch := 0;
      var nextElectionSeed: Duration := 0;
      if id > 0 {
        nextElectionSeed := Minute;
      }
      nextElection := now + nextElectionSeed as int;
      election := None;
      inbox := [];
      outbox := [];
      electionForced := false;
      network := new NetworkState.Healthy(NumProcesses);
      votes := [];
    }

    /** What NewMessage reads from this process. */
    function AsSender(): Sender
      reads this`currentEpoch, network.lag, network.packetloss
    {
      Sender(id, currentEpoch, network.lag[..], network.packetloss[..])
    }

    /** NewMessage: a message from this process to `to`, carrying its epoch and its own link settings towards `to`. */
    function NewMessage(to: int): (m: Message)
      reads this`currentEpoch, network.lag, network.packetloss
      requires Wired() && 0 <= to < NumProcesses
      ensures m.from == id && m.to == to && m.processEpoch == currentEpoch
      ensures m.lag == network.lag[to] && m.packetloss == network.packetloss[to]
      ensures m.kind == "" && m.frequency == 0 && m.frequencyEpoch == 0
    {
      Message("", id, to, currentEpoch, 0, 0, network.lag[to], network.packetloss[to])
    }

    /**
     * Whether this process grants the vote `message` asks for. After the
     * epoch update, it refuses when its epoch is ahead of the requester's,
     * when it already voted in that epoch, or when it saw a frequency change
     * newer than the requester's.
     */
    predicate GrantsVote(message: Message)
      reads this
    {
      var epoch := Max(currentEpoch, message.processEpoch);
      !(epoch > message.processEpoch || lastVoteEpoch >= epoch || frequencyEpoch > message.frequencyEpoch)
    }

    /**
     * What HandleMessage needs to run without a nil dereference or an index
     * out of range: a vote it grants goes to a process of the cluster, and a
     * vote that is not stale finds a candidacy to count.
     */
    predicate CanHandle(message: Message)
      reads this
    {
      && (message.kind == ElectMeKind && GrantsVote(message) ==> 0 <= message.from < NumProcesses)
      && (message.kind == VoteKind && message.processEpoch >= currentEpoch ==> election.Some?)
    }

    /**
     * What handling `message` does to the protocol state, relating the state
     * before (old) to the state after: the epoch moves up to the message's,
     * then the message's kind decides the rest.
     */
    twostate predicate Handled(message: Message)
      reads this, network.lag, network.packetloss
      requires Wired()
    {
      && currentEpoch == Max(old(currentEpoch), message.processEpoch)
      && if message.kind == HeartbeatKind then HeartbeatHandled(message)
         else if message.kind == ElectMeKind then VoteRequestHandled(message)
         else if message.kind == VoteKind then VoteHandled(message)
         else
           // any other kind only moves the epoch
           && lastVoteEpoch == old(lastVoteEpoch) && votes == old(votes)
           && election == old(election) && outbox == old(outbox)
           && frequency == old(frequency) && frequencyEpoch == old(frequencyEpoch)
    }

    /** A heartbeat is adopted only when its frequency epoch is strictly newer than this process's. */
    twostate predicate HeartbeatHandled(message: Message)
      reads this
    {
      && lastVoteEpoch == old(lastVoteEpoch) && votes == old(votes)
      && election == old(election) && outbox == old(outbox)
      && if message.frequencyEpoch > old(frequencyEpoch)
         then frequency == message.frequency && frequencyEpoch == message.frequencyEpoch
         else frequency == old(frequency) && frequencyEpoch == old(frequencyEpoch)
    }

    /** A vote request is granted, with a reply to its sender, exactly when GrantsVote holds. */
    twostate predicate VoteRequestHandled(message: Message)
      reads this, network.lag, network.packetloss
      requires Wired()
    {
      && frequency == old(frequency) && frequencyEpoch == old(frequencyEpoch)
      && election == old(election)
      && if !old(GrantsVote(message))
         then lastVoteEpoch == old(lastVoteEpoch) && votes == old(votes) && outbox == old(outbox)
         else
           && 0 <= message.from < NumProcesses
           && lastVoteEpoch == currentEpoch && votes == old(votes) + [currentEpoch]
           && outbox == old(outbox) + [Stamp(AsSender(), message.from, VoteKind, 0, 0)]
    }

    /**
     * A vote from an earlier epoch is ignored; a current one is counted, and
     * once the votes are a majority of the cluster the candidacy's frequency
     * is adopted and sent to every peer.
     */
    twostate predicate VoteHandled(message: Message)
      reads this, network.lag, network.packetloss
      requires Wired()
    {
      && lastVoteEpoch == old(lastVoteEpoch) && votes == old(votes)
      && if message.processEpoch < old(currentEpoch)
         then
           && election == old(election) && outbox == old(outbox)
           && frequency == old(frequency) && frequencyEpoch == old(frequencyEpoch)
         else
           && old(election).Some?
           && var e := old(election).value.(numVotes := old(election).value.numVotes + 1);
           && election == Some(e)
           && if e.numVotes * 2 > e.numProcesses
              then
                && frequency == e.newFrequency && frequencyEpoch == e.frequencyEpoch
                && outbox == old(outbox) + Broadcast(AsSender(), Peers(id), HeartbeatKind, frequency, frequencyEpoch)
              else
                && frequency == old(frequency) && frequencyEpoch == old(frequencyEpoch)
                && outbox == old(outbox)
    }

    /** HandleMessage: one inbound message through the protocol's state machine. */
    method HandleMessage(message: Message)
      requires Valid() && CanHandle(message)
      modifies this`currentEpoch, this`frequency, this`frequencyEpoch, this`lastVoteEpoch, this`votes
      modifies this`election, this`outbox
      ensures Valid() && Handled(message)
    {
      if currentEpoch < message.processEpoch {
        // a newer epoch from any message is taken over before the kind is looked at
        currentEpoch := message.processEpoch;
      }

      if message.kind == HeartbeatKind {
        HandleHeartbeat(message);
      } else if message.kind == ElectMeKind {
        HandleElectMe(message);
      } else if message.kind == VoteKind {
        HandleVote(message);
      }
    }

    /** The "heartbeat" case of HandleMessage, after the epoch update. */
    method HandleHeartbeat(message: Message)
      modifies this`frequency, this`frequencyEpoch
      ensures HeartbeatHandled(message)
    {
      if frequencyEpoch >= message.frequencyEpoch {
        return;
      }
      frequency := message.frequency;
      frequencyEpoch := message.frequencyEpoch;
    }

    /** The "elect_me" case of HandleMessage, after the epoch update. */
    method HandleElectMe(message: Message)
      requires Valid() && currentEpoch >= message.processEpoch
      requires GrantsVote(message) ==> 0 <= message.from < NumProcesses
      modifies this`lastVoteEpoch, this`votes, this`outbox
      ensures Valid() && VoteRequestHandled(message)
    {
      if currentEpoch > message.processEpoch
         || lastVoteEpoch >= currentEpoch
         || frequencyEpoch > message.frequencyEpoch
      {
        return;
      }
      VoteKeepsValid(currentEpoch);
      lastVoteEpoch := currentEpoch;
      votes := votes + [currentEpoch];
      var reply := NewMessage(message.from);
      reply := reply.(kind := VoteKind, processEpoch := currentEpoch);
      outbox := outbox + [reply];
    }

    /** The "you_have_my_vote" case of HandleMessage, after the epoch update. */
    method HandleVote(message: Message)
      requires Wired() && currentEpoch >= message.processEpoch
      requires message.processEpoch >= currentEpoch ==> election.Some?
      modifies this`frequency, this`frequencyEpoch, this`election, this`outbox
      ensures VoteHandled(message)
    {
      if message.processEpoch < currentEpoch {
        return;
      }
      var e := election.value;
      e := e.(numVotes := e.numVotes + 1);
      election := Some(e);
      if e.numVotes * 2 > e.numProcesses {
        frequency := e.newFrequency;
        frequencyEpoch := e.frequencyEpoch;
        PropagateFrequency();
      }
    }

    /** SendUpdate: a heartbeat with the adopted frequency to one process. */
    method SendUpdate(to: int)
      requires Wired() && 0 <= to < NumProcesses
      modifies this`outbox
      ensures outbox == old(outbox) + [Stamp(AsSender(), to, HeartbeatKind, frequency, frequencyEpoch)]
    {
      var message := NewMessage(to);
      message := message.(processEpoch := currentEpoch, frequency := frequency,
                          frequencyEpoch := frequencyEpoch, kind := HeartbeatKind);
      outbox := outbox + [message];
    }

    /** PropagateFrequency: a heartbeat to every peer but this process. */
    method PropagateFrequency()
      requires Wired()
      modifies this`outbox
      ensures outbox == old(outbox) + Broadcast(AsSender(), Peers(id), HeartbeatKind, frequency, frequencyEpoch)
    {
      ghost var me := AsSender();
      ghost var done: nat := 0;
      var peerId := 0;
      while peerId < NumProcesses
        invariant 0 <= peerId <= NumProcesses && done == peerId && AsSender() == me
        invariant outbox == old(outbox) + Broadcast(me, PeersBelow(id, done), HeartbeatKind, frequency, frequencyEpoch)
      {
        ghost var sent := Broadcast(me, PeersBelow(id, done), HeartbeatKind, frequency, frequencyEpoch);
        done := BroadcastStep(me, peerId, HeartbeatKind, frequency, frequencyEpoch);
        if id != peerId {
          ghost var next := Stamp(me, peerId, HeartbeatKind, frequency, frequencyEpoch);
          SendUpdate(peerId);
          AppendAssoc(old(outbox), sent, [next]);
        }
        peerId := peerId + 1;
      }
    }

    /** ElectMe: move to the next epoch, vote for itself and ask every peer for its vote. */
    method ElectMe(newFrequency: int)
      requires Valid() && 0 <= newFrequency < 100
      modifies this
      ensures Valid()
      ensures currentEpoch == old(currentEpoch) + 1
      ensures lastVoteEpoch == currentEpoch && votes == old(votes) + [currentEpoch]
      ensures election == Some(Election(newFrequency, currentEpoch, 1, NumProcesses))
      ensures frequency == old(frequency) && frequencyEpoch == old(frequencyEpoch)
      ensures nextElection == old(nextElection) && electionForced == old(electionForced)
      ensures inbox == old(inbox)
      ensures outbox == old(outbox) + Broadcast(AsSender(), Peers(id), ElectMeKind, newFrequency, frequencyEpoch)
      ensures 0 <= id < NumProcesses ==> |outbox| == |old(outbox)| + NumProcesses - 1
    {
      currentEpoch := currentEpoch + 1;
      VoteKeepsValid(currentEpoch);
      lastVoteEpoch := currentEpoch;
      votes := votes + [currentEpoch];
      election := Some(Election(newFrequency, currentEpoch, 1, NumProcesses));

      RequestVotes(newFrequency);
    }

    /**
     * The loop of ElectMe: an elect_me message to every peer, carrying the
     * candidacy's frequency and this process's current frequency epoch.
     */
    method RequestVotes(newFrequency: int)
      requires Wired()
      modifies this`outbox
      ensures outbox == old(outbox) + Broadcast(AsSender(), Peers(id), ElectMeKind, newFrequency, frequencyEpoch)
    {
      ghost var me := AsSender();
      ghost var done: nat := 0;
      var peerId := 0;
      while peerId < NumProcesses
        invariant 0 <= peerId <= NumProcesses && done == peerId && AsSender() == me
        invariant outbox == old(outbox) + Broadcast(me, PeersBelow(id, done), ElectMeKind, newFrequency, frequencyEpoch)
      {
        ghost var sent := Broadcast(me, PeersBelow(id, done), ElectMeKind, newFrequency, frequencyEpoch);
        done := BroadcastStep(me, peerId, ElectMeKind, newFrequency, frequencyEpoch);
        if id != peerId {
          ghost var next := Stamp(me, peerId, ElectMeKind, newFrequency, frequencyEpoch);
          SendElectMe(peerId, newFrequency);
          AppendAssoc(old(outbox), sent, [next]);
        }
        peerId := peerId + 1;
      }
    }

    /** One pass of ElectMe's loop: an elect_me message with the candidacy's frequency to one process. */
    method SendElectMe(to: int, newFrequency: int)
      requires Wired() && 0 <= to < NumProcesses
      modifies this`outbox
      ensures outbox == old(outbox) + [Stamp(AsSender(), to, ElectMeKind, newFrequency, frequencyEpoch)]
    {
      var message := NewMessage(to);
      message := message.(kind := ElectMeKind, processEpoch := currentEpoch,
                          frequency := newFrequency, frequencyEpoch := frequencyEpoch);
      outbox := outbox + [message];
    }

    /**
     * The election trigger at the top of Run's loop: a process that has no
     * frequency yet, or has been forced, starts an election once the clock
     * is past its deadline, and draws its next deadline 10 to 19 seconds on.
     * The clock is read twice: `now` decides whether to start, and the later
     * reading `later` is the base of the new deadline.
     */
    method ElectionTrigger(now: Time, later: Time, jitter: int, newFrequency: int) returns (started: bool)
      requires Valid() && now <= later && 0 <= jitter < 10 && 0 <= newFrequency < 100
      modifies this
      ensures Valid()
      ensures started == ((old(frequency) == -1 || old(electionForced)) && now > old(nextElection))
      ensures !started ==> unchanged(this)
      ensures started ==> !electionForced && nextElection == later + ((10 + jitter) as Duration * Second) as int
      ensures started ==>
        && currentEpoch == old(currentEpoch) + 1
        && lastVoteEpoch == currentEpoch && votes == old(votes) + [currentEpoch]
        && election == Some(Election(newFrequency, currentEpoch, 1, NumProcesses))
        && frequency == old(frequency) && frequencyEpoch == old(frequencyEpoch)
        && inbox == old(inbox)
        && outbox == old(outbox) + Broadcast(AsSender(), Peers(id), ElectMeKind, newFrequency, frequencyEpoch)
    {
      var wantsNewElection := frequency == -1 || electionForced;
      started := wantsNewElection && now > nextElection;
      if started {
        electionForced := false;
        var secondsToWait := (10 + jitter) as Duration * Second;
        nextElection := later + secondsToWait as int;
        ElectMe(newFrequency);
      }
    }

    /**
     * Iterate: one wake-up of the select statement. An inbox message is
     * handled, a ticker tick sends a heartbeat to the drawn peer, and a force
     * command with an election flag sets ElectionForced and nothing else.
     */
    method Iterate(event: Event)
      requires Valid()
      requires event.InboxReady? ==> inbox != [] && CanHandle(inbox[0])
      requires event.TickerFired? ==> 0 <= event.peer < NumProcesses
      modifies this
      ensures Valid()
      ensures event.InboxReady? ==>
        && inbox == old(inbox)[1..] && Handled(old(inbox)[0])
        && nextElection == old(nextElection) && electionForced == old(electionForced)
      ensures event.TickerFired? ==>
        && outbox == old(outbox) + [Stamp(AsSender(), event.peer, HeartbeatKind, frequency, frequencyEpoch)]
        && OnlyOutboxChanged() && electionForced == old(electionForced)
      ensures event.GodSent? ==>
        && outbox == old(outbox)
        && OnlyOutboxChanged()
        && electionForced == if event.force.election.Some? then event.force.election.value else old(electionForced)
    {
      match event
      case InboxReady =>
        var message := inbox[0];
        inbox := inbox[1..];
        HandleMessage(message);
      case TickerFired(peer) =>
        SendUpdate(peer);
      case GodSent(force) =>
        if force.election.Some? {
          electionForced := force.election.value;
        }
    }

    /** The send on this process's inbound channel. */
    method Receive(message: Message)
      modifies this`inbox
      ensures inbox == old(inbox) + [message]
    {
      inbox := inbox + [message];
    }

    /** Every field but the outbox and the force flag is as it was. */
    twostate predicate OnlyOutboxChanged()
      reads this
    {
      && currentEpoch == old(currentEpoch) && frequency == old(frequency)
      && frequencyEpoch == old(frequencyEpoch) && lastVoteEpoch == old(lastVoteEpoch)
      && votes == old(votes) && nextElection == old(nextElection)
      && election == old(election) && inbox == old(inbox)
    }

    /** Every field but the inbox is as it was. */
    twostate predicate OnlyInboxChanged()
      reads this
    {
      && currentEpoch == old(currentEpoch) && frequency == old(frequency)
      && frequencyEpoch == old(frequencyEpoch) && lastVoteEpoch == old(lastVoteEpoch)
      && votes == old(votes) && nextElection == old(nextElection)
      && election == old(election) && outbox == old(outbox)
      && electionForced == old(electionForced)
    }
  }

  /**
   * Two vote requests for the same epoch draw at most one vote from a
   * process: whichever is granted first leaves lastVoteEpoch at the
   * current epoch, which refuses the other.
   */
  method VoteOncePerEpoch(p: Process, first: Message, second: Message)
    requires p.Valid()
    requires first.kind == ElectMeKind && second.kind == ElectMeKind
    requires first.processEpoch == second.processEpoch
    requires 0 <= first.from < NumProcesses && 0 <= second.from < NumProcesses
    modifies p
    ensures p.Valid()
    ensures |p.outbox| <= |old(p.outbox)| + 1
    ensures |p.votes| <= |old(p.votes)| + 1
  {
    p.HandleMessage(first);
    p.HandleMessage(second);
  }

  // ---------------------------------------------------------------------
  // The router (Mailbox)
  // ---------------------------------------------------------------------

  /** What the router does with one message. */
  datatype Route = Dropped | Immediate | Delayed

  /**
   * The router's decision for one message, given the draw rand.Intn(100):
   * dropped when the draw is below the link's loss percentage, otherwise
   * delivered at once, or after its lag when that is positive.
   */
  function RouteOf(message: Message, draw: int): (r: Route)
    requires 0 <= draw < 100
    ensures r == Dropped <==> draw < message.packetloss
    ensures message.packetloss <= 0 ==> r != Dropped
    ensures message.packetloss >= 100 ==> r == Dropped
    ensures r == Delayed <==> draw >= message.packetloss && message.lag > 0
  {
    if draw < message.packetloss then Dropped
    else if message.lag > 0 then Delayed
    else Immediate
  }

  predicate Draws(draws: seq<int>)
  {
    forall k :: 0 <= k < |draws| ==> 0 <= draws[k] < 100
  }

  /** The first `n` arrivals come with a loss draw each. */
  predicate Routable(arrivals: seq<Message>, draws: seq<int>, n: nat)
  {
    n <= |arrivals| && |draws| == |arrivals| && Draws(draws)
  }

  /** What the router hands straight to process `p` out of the first `n` arrivals, in arrival order. */
  function DeliveredTo(arrivals: seq<Message>, draws: seq<int>, n: nat, p: int): (ms: seq<Message>)
    requires Routable(arrivals, draws, n)
    ensures |ms| <= n
  {
    if n == 0 then []
    else
      DeliveredTo(arrivals, draws, n - 1, p)
      + (if RouteOf(arrivals[n - 1], draws[n - 1]) == Immediate && arrivals[n - 1].to == p then [arrivals[n - 1]] else [])
  }

  /** What the router hands on only after its lag, out of the first `n` arrivals, in arrival order. */
  function InFlight(arrivals: seq<Message>, draws: seq<int>, n: nat): (ms: seq<Message>)
    requires Routable(arrivals, draws, n)
    ensures |ms| <= n
  {
    if n == 0 then []
    else
      InFlight(arrivals, draws, n - 1)
      + (if RouteOf(arrivals[n - 1], draws[n - 1]) == Delayed then [arrivals[n - 1]] else [])
  }

  /** Every message handed to `p` was addressed to `p`, is one of the arrivals, has no lag and passed the loss draw. */
  lemma {:induction false} DeliveredToAddressed(arrivals: seq<Message>, draws: seq<int>, n: nat, p: int)
    requires Routable(arrivals, draws, n)
    ensures forall m :: m in DeliveredTo(arrivals, draws, n, p) ==> m.to == p && m.lag <= 0 && m in arrivals[..n]
  {
    if n > 0 {
      DeliveredToAddressed(arrivals, draws, n - 1, p);
    }
  }

  /** Every message held in flight is one of the arrivals and has a positive lag. */
  lemma {:induction false} InFlightLagged(arrivals: seq<Message>, draws: seq<int>, n: nat)
    requires Routable(arrivals, draws, n)
    ensures forall m :: m in InFlight(arrivals, draws, n) ==> m.lag > 0 && m in arrivals[..n]
  {
    if n > 0 {
      InFlightLagged(arrivals, draws, n - 1);
    }
  }

  /** Links at 100% loss deliver nothing, whatever the draws: a partitioned process hears nothing. */
  lemma {:induction false} FullLossDeliversNothing(arrivals: seq<Message>, draws: seq<int>, n: nat, p: int)
    requires Routable(arrivals, draws, n)
    requires forall k :: 0 <= k < n ==> arrivals[k].packetloss >= 100
    ensures DeliveredTo(arrivals, draws, n, p) == [] && InFlight(arrivals, draws, n) == []
  {
    if n > 0 {
      FullLossDeliversNothing(arrivals, draws, n - 1, p);
      var route := RouteOf(arrivals[n - 1], draws[n - 1]);
      assert route == Dropped;
      assert DeliveredTo(arrivals, draws, n, p) == DeliveredTo(arrivals, draws, n - 1, p) + [];
      assert InFlight(arrivals, draws, n) == InFlight(arrivals, draws, n - 1) + [];
    }
  }

  /** The messages of `ms` addressed to `p`, in their order in `ms`. */
  function AddressedTo(ms: seq<Message>, p: int): seq<Message>
  {
    if ms == [] then []
    else AddressedTo(ms[..|ms| - 1], p) + (if ms[|ms| - 1].to == p then [ms[|ms| - 1]] else [])
  }

  /** Links with no loss and no lag deliver every message at once: each process gets exactly those addressed to it, in arrival order. */
  lemma {:induction false} HealthyLinksDeliverAll(arrivals: seq<Message>, draws: seq<int>, n: nat, p: int)
    requires Routable(arrivals, draws, n)
    requires forall k :: 0 <= k < n ==> arrivals[k].packetloss <= 0 && arrivals[k].lag <= 0
    ensures DeliveredTo(arrivals, draws, n, p) == AddressedTo(arrivals[..n], p)
    ensures InFlight(arrivals, draws, n) == []
  {
    if n > 0 {
      HealthyLinksDeliverAll(arrivals, draws, n - 1, p);
      assert arrivals[..n][..n - 1] == arrivals[..n - 1];
    }
  }

  /** Routing arrival n adds at most one message: to the in-flight list or to its recipient's deliveries. */
  // `next` is n + 1, returned so that the router's loop counts with it and the solver need not relate n + 1 to the routed lists itself
  lemma RouteStep(arrivals: seq<Message>, draws: seq<int>, n: nat) returns (next: nat)
    requires Routable(arrivals, draws, n + 1)
    ensures next == n + 1
    ensures RouteOf(arrivals[n], draws[n]) == Delayed ==>
      InFlight(arrivals, draws, next) == InFlight(arrivals, draws, n) + [arrivals[n]]
    ensures RouteOf(arrivals[n], draws[n]) != Delayed ==>
      InFlight(arrivals, draws, next) == InFlight(arrivals, draws, n)
    ensures RouteOf(arrivals[n], draws[n]) == Immediate ==>
      DeliveredTo(arrivals, draws, next, arrivals[n].to) == DeliveredTo(arrivals, draws, n, arrivals[n].to) + [arrivals[n]]
    ensures forall p :: RouteOf(arrivals[n], draws[n]) != Immediate || arrivals[n].to != p ==>
      DeliveredTo(arrivals, draws, next, p) == DeliveredTo(arrivals, draws, n, p)
  {
    next := n + 1;
    assert InFlight(arrivals, draws, next) == InFlight(arrivals, draws, n) + (if RouteOf(arrivals[n], draws[n]) == Delayed then [arrivals[n]] else []);
    forall p
      ensures DeliveredTo(arrivals, draws, next, p)
        == DeliveredTo(arrivals, draws, n, p) + (if RouteOf(arrivals[n], draws[n]) == Immediate && arrivals[n].to == p then [arrivals[n]] else [])
    {
    }
  }

  /**
   * Mailbox: route the first NumMessages arrivals (all of them when fewer
   * have arrived). A message whose draw falls below its loss is dropped; one
   * with positive lag is returned as in flight; the rest are appended to
   * their recipient's inbox.
   */
  method Mailbox(processes: seq<Process>, arrivals: seq<Message>, draws: seq<int>) returns (inFlight: seq<Message>)
    requires |draws| == |arrivals| && Draws(draws)
    requires forall k :: 0 <= k < |arrivals| && k < NumMessages && draws[k] >= arrivals[k].packetloss ==> 0 <= arrivals[k].to < |processes|
    requires forall i, j :: 0 <= i < j < |processes| ==> processes[i] != processes[j]
    modifies set p | p in processes
    ensures var handled := if |arrivals| < NumMessages then |arrivals| else NumMessages;
      && inFlight == InFlight(arrivals, draws, handled)
      && forall i :: 0 <= i < |processes| ==>
           processes[i].inbox == old(processes[i].inbox) + DeliveredTo(arrivals, draws, handled, i)
    ensures forall i :: 0 <= i < |processes| ==> processes[i].OnlyInboxChanged()
  {
    var handled := if |arrivals| < NumMessages then |arrivals| else NumMessages;
    inFlight := [];
    ghost var routed: nat := 0;
    var messageNum := 0;
    while messageNum < handled
      invariant 0 <= messageNum <= handled && routed == messageNum
      invariant inFlight == InFlight(arrivals, draws, routed)
      invariant forall i :: 0 <= i < |processes| ==>
        processes[i].inbox == old(processes[i].inbox) + DeliveredTo(arrivals, draws, routed, i)
      invariant forall i :: 0 <= i < |processes| ==> processes[i].OnlyInboxChanged()
    {
      var message := arrivals[messageNum];
      var route := RouteOf(message, draws[messageNum]);
      assert route != Dropped ==> 0 <= message.to < |processes|;
      ghost var before := routed;
      routed := RouteStep(arrivals, draws, messageNum);
      if route == Delayed {
        inFlight := inFlight + [message];
      } else if route == Immediate {
        var recipient := processes[message.to];
        AppendAssoc(old(recipient.inbox), DeliveredTo(arrivals, draws, before, message.to), [message]);
        recipient.Receive(message);
      }
      messageNum := messageNum + 1;
    }
  }
}
