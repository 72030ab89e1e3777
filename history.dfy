/**
 * The election-history ledger (server/history.go): a global list of
 * election records, each numbered by a global counter, and per record the
 * messages it sent and the replies it received, each reply with a snapshot
 * of the receiving process.
 *
 * The Go code guards the ledger and each record with a mutex; the model runs
 * the operations one at a time.
 */
module History {
  import opened Protocol

  /** The fields of a process that a received-message entry records. */
  datatype ProcessState = ProcessState(id: int, currentEpoch: int, frequencyEpoch: int, lastVoteEpoch: int)

  /** A reply as the ledger keeps it: the message, the receiver's state, and whether it was a success. */
  datatype ReceivedMessage = ReceivedMessage(message: Message, processState: ProcessState, successful: bool)

  /** Process.ProcessState: a copy of the process's id and epochs, taken without changing it. */
  function Snapshot(p: Process): (s: ProcessState)
    reads p
  {
    ProcessState(p.id, p.currentEpoch, p.frequencyEpoch, p.lastVoteEpoch)
  }

  /**
   * One election record. Its id, elector and request frequency are set when
   * it is made and never reassigned; `successful` starts false and no
   * operation sets it.
   */
  class ElectionHistory {
    const id: int
    const electorId: int
    const requestFrequency: int
    var sentMessages: seq<Message>
    var receivedMessages: seq<ReceivedMessage>
    var successful: bool

    /** A fresh record with empty message lists. */
    constructor (id: int, electorId: int, requestFrequency: int)
      ensures this.id == id && this.electorId == electorId && this.requestFrequency == requestFrequency
      ensures sentMessages == [] && receivedMessages == [] && !successful
    {
      this.id := id;
      this.electorId := electorId;
      this.requestFrequency := requestFrequency;
      sentMessages := [];
      receivedMessages := [];
      successful := false;
    }

    /** Sent: the message becomes the last sent message; nothing else in the record changes. */
    method Sent(message: Message)
      modifies this`sentMessages
      ensures sentMessages == old(sentMessages) + [message]
    {
      sentMessages := sentMessages + [message];
    }

    /** ReceivedUnsuccessful: one more reply, marked unsuccessful, with the receiver's snapshot. */
    method ReceivedUnsuccessful(message: Message, process: Process)
      modifies this`receivedMessages
      ensures receivedMessages == old(receivedMessages) + [ReceivedMessage(message, Snapshot(process), false)]
      ensures unchanged(process)
    {
      receivedMessages := receivedMessages + [ReceivedMessage(message, Snapshot(process), false)];
    }

    /** ReceivedSuccessful: one more reply, marked successful, with the receiver's snapshot. */
    method ReceivedSuccessful(message: Message, process: Process)
      modifies this`receivedMessages
      ensures receivedMessages == old(receivedMessages) + [ReceivedMessage(message, Snapshot(process), true)]
      ensures unchanged(process)
    {
      receivedMessages := receivedMessages + [ReceivedMessage(message, Snapshot(process), true)];
    }
  }

  /** The package-level ledger: the id counter and the list of records, oldest first. */
  class Ledger {
    var electionId: int
    var elections: seq<ElectionHistory>

    /** The counter is the number of records, and the record at index i has id i. */
    ghost predicate Valid()
      reads this
    {
      && electionId == |elections|
      && forall i :: 0 <= i < |elections| ==> elections[i].id == i
    }

    /** The zero values the package starts with. */
    constructor ()
      ensures electionId == 0 && elections == [] && Valid()
    {
      electionId := 0;
      elections := [];
    }

    /**
     * NewElection: a fresh, empty record numbered with the counter, appended
     * to the list; the counter moves on by one.
     */
    method NewElection(electorId: int, requestFrequency: int) returns (ret: ElectionHistory)
      modifies this
      ensures fresh(ret)
      ensures ret.id == old(electionId) && electionId == old(electionId) + 1
      ensures elections == old(elections) + [ret]
      ensures ret.electorId == electorId && ret.requestFrequency == requestFrequency
      ensures ret.sentMessages == [] && ret.receivedMessages == [] && !ret.successful
      ensures old(Valid()) ==> Valid()
    {
      ret := new ElectionHistory(electionId, electorId, requestFrequency);
      electionId := electionId + 1;
      elections := elections + [ret];
    }

    /** In a valid ledger the ids strictly increase along the list, so no two records share one. */
    lemma IdsIncrease()
      requires Valid()
      ensures forall i, j :: 0 <= i < j < |elections| ==> elections[i].id < elections[j].id
    {
    }
  }
}
