/**
 The durable approval channel and the web gate in front of it.
 */
module ApprovalGate {
  import opened Options
  import opened Ledgers

  /** What is asked for: the action with its arguments. The source hashes it; the hash is taken to be injective. */
  datatype Fingerprint = Fingerprint(action: Action, arguments: string)

  /** A request is filed under the run's own request and the action. */
  datatype RequestId = RequestId(run: string, action: Action)

  datatype Request = Request(id: RequestId, fingerprint: Fingerprint, expires: nat)

  datatype Row = Row(
    fingerprint: Fingerprint, expires: nat, decision: string, responder: string, consumedAt: Option<nat>)

  type Rows = map<RequestId, Row>

  const TICKS_PER_SECOND: nat := 1000000

  /** The channel stores expiries in whole seconds. */
  function WholeSeconds(t: nat): (r: nat)
    ensures r <= t < r + TICKS_PER_SECOND && r % TICKS_PER_SECOND == 0
  {
    t - t % TICKS_PER_SECOND
  }

  predicate IsOpen(row: Row, fingerprint: Fingerprint, now: nat) {
    row.fingerprint == fingerprint && row.decision == "" && row.consumedAt.None? && now < row.expires
  }

  datatype Put = Put(rows: Rows, done: bool)

  /** Registers a request; an open row for the same proposal is left as it is. `stored` is false when
      the write fails. */
  function OpenTx(rows: Rows, request: Request, now: nat, stored: bool): Put {
    if request.id in rows then Put(rows, IsOpen(rows[request.id], request.fingerprint, now))
    else if !stored then Put(rows, false)
    else Put(rows[request.id := Row(request.fingerprint, WholeSeconds(request.expires), "", "", None)], true)
  }

  /** The command center's answer, bound to the proposal it shows. */
  function DecideExactTx(rows: Rows, id: RequestId, decision: string, fingerprint: Fingerprint, responder: string,
                         now: nat, stored: bool): Put {
    if decision !in {"approve", "decline"} || responder == "" || id !in rows then Put(rows, false)
    else if !IsOpen(rows[id], fingerprint, now) || !stored then Put(rows, false)
    else Put(rows[id := rows[id].(decision := decision, responder := responder)], true)
  }

  /** The plain answer: anything, once. */
  function DecideTx(rows: Rows, id: RequestId, decision: string, responder: string): Put {
    if id !in rows || rows[id].decision != "" then Put(rows, false)
    else Put(rows[id := rows[id].(decision := decision, responder := responder)], true)
  }

  function ConsumeTx(rows: Rows, id: RequestId, fingerprint: Fingerprint, now: nat, stored: bool): Put {
    if id !in rows || rows[id].decision != "approve" || rows[id].consumedAt.Some? then Put(rows, false)
    else if !IsOpen(rows[id].(decision := ""), fingerprint, now) || !stored then Put(rows, false)
    else Put(rows[id := rows[id].(consumedAt := Some(now))], true)
  }

  /** What anyone may do to the channel. */
  datatype ChannelOp =
    | Open(request: Request, stored: bool)
    | DecideExactly(id: RequestId, decision: string, fingerprint: Fingerprint, responder: string, stored: bool)
    | Decide(id: RequestId, decision: string, responder: string)
    | Consume(id: RequestId, fingerprint: Fingerprint, stored: bool)

  function ApplyTx(rows: Rows, op: ChannelOp, now: nat): Rows {
    match op
    case Open(request, stored) => OpenTx(rows, request, now, stored).rows
    case DecideExactly(id, decision, fingerprint, responder, stored) =>
      DecideExactTx(rows, id, decision, fingerprint, responder, now, stored).rows
    case Decide(id, decision, responder) => DecideTx(rows, id, decision, responder).rows
    case Consume(id, fingerprint, stored) => ConsumeTx(rows, id, fingerprint, now, stored).rows
  }

  /** An answer, once given, and a consumption, once made, are never altered. */
  ghost predicate Keeps(before: Rows, after: Rows) {
    forall id | id in before ::
      && id in after && after[id].fingerprint == before[id].fingerprint && after[id].expires == before[id].expires
      && (before[id].decision != "" ==>
            after[id].decision == before[id].decision && after[id].responder == before[id].responder)
      && (before[id].consumedAt.Some? ==> after[id].consumedAt == before[id].consumedAt)
  }

  lemma OpenKeeps(rows: Rows, request: Request, now: nat, stored: bool)
    ensures Keeps(rows, OpenTx(rows, request, now, stored).rows)
  {}

  lemma DecideExactKeeps(rows: Rows, id: RequestId, decision: string, fingerprint: Fingerprint, responder: string,
                         now: nat, stored: bool)
    ensures Keeps(rows, DecideExactTx(rows, id, decision, fingerprint, responder, now, stored).rows)
  {}

  lemma DecideKeeps(rows: Rows, id: RequestId, decision: string, responder: string)
    ensures Keeps(rows, DecideTx(rows, id, decision, responder).rows)
  {}

  lemma ConsumeKeeps(rows: Rows, id: RequestId, fingerprint: Fingerprint, now: nat, stored: bool)
    ensures Keeps(rows, ConsumeTx(rows, id, fingerprint, now, stored).rows)
  {}

  lemma ApplyKeeps(rows: Rows, op: ChannelOp, now: nat)
    ensures Keeps(rows, ApplyTx(rows, op, now))
  {
    match op
    case Open(request, stored) => OpenKeeps(rows, request, now, stored);
    case DecideExactly(id, decision, fingerprint, responder, stored) =>
      DecideExactKeeps(rows, id, decision, fingerprint, responder, now, stored);
    case Decide(id, decision, responder) => DecideKeeps(rows, id, decision, responder);
    case Consume(id, fingerprint, stored) => ConsumeKeeps(rows, id, fingerprint, now, stored);
  }

  // ---- what the channel decides -----------------------------------------------------------------

  /** Asked for exactly this, not answered, not consumed and not expired. */
  ghost predicate Unanswered(rows: Rows, id: RequestId, fingerprint: Fingerprint, now: nat) {
    && id in rows && rows[id].fingerprint == fingerprint && rows[id].decision == "" && rows[id].consumedAt == None
    && now < rows[id].expires
  }

  /** Approved for exactly this, not consumed and not expired. */
  ghost predicate Spendable(rows: Rows, id: RequestId, fingerprint: Fingerprint, now: nat) {
    && id in rows && rows[id].fingerprint == fingerprint && rows[id].decision == "approve"
    && rows[id].consumedAt == None && now < rows[id].expires
  }

  /** A registered request: unanswered, and expiring with the whole second of its deadline. */
  ghost predicate Registers(rows: Rows, request: Request, after: Rows) {
    && after.Keys == rows.Keys + {request.id} && (forall id | id in rows :: after[id] == rows[id])
    && request.id !in rows
    && var row := after[request.id];
      && row.fingerprint == request.fingerprint && row.decision == "" && row.responder == "" && row.consumedAt == None
      && row.expires % TICKS_PER_SECOND == 0 && row.expires <= request.expires < row.expires + TICKS_PER_SECOND
  }

  lemma OpensExactlyWhen(rows: Rows, request: Request, now: nat, stored: bool)
    ensures var put := OpenTx(rows, request, now, stored);
      if request.id in rows
      then put.rows == rows && (put.done <==> Unanswered(rows, request.id, request.fingerprint, now))
      else (put.done <==> stored) && (if stored then Registers(rows, request, put.rows) else put.rows == rows)
  {}

  lemma ConsumesExactlyWhen(rows: Rows, id: RequestId, fingerprint: Fingerprint, now: nat, stored: bool)
    ensures var put := ConsumeTx(rows, id, fingerprint, now, stored);
      && (put.done <==> stored && Spendable(rows, id, fingerprint, now))
      && put.rows == if put.done then rows[id := rows[id].(consumedAt := Some(now))] else rows
  {}

  class Channel {
    var rows: Rows

    constructor ()
      ensures rows == map[]
    {
      rows := map[];
    }

    method OpenExact(request: Request, now: nat, stored: bool) returns (done: bool)
      modifies this
      ensures Put(rows, done) == OpenTx(old(rows), request, now, stored)
      ensures request.id in old(rows) ==>
                rows == old(rows) && (done <==> Unanswered(rows, request.id, request.fingerprint, now))
      ensures request.id !in old(rows) ==>
                (done <==> stored) && (if stored then Registers(old(rows), request, rows) else rows == old(rows))
    {
      OpensExactlyWhen(rows, request, now, stored);
      if request.id in rows {
        return IsOpen(rows[request.id], request.fingerprint, now);
      }
      var before := rows;
      rows := rows[request.id := Row(request.fingerprint, WholeSeconds(request.expires), "", "", None)];
      if !stored {
        rows := before;
      }
      return stored;
    }

    method DecideExact(
      id: RequestId, decision: string, fingerprint: Fingerprint, responder: string, now: nat, stored: bool)
      returns (done: bool)
      modifies this
      ensures Put(rows, done) == DecideExactTx(old(rows), id, decision, fingerprint, responder, now, stored)
      ensures done <==>
                && (decision == "approve" || decision == "decline") && responder != "" && stored
                && Unanswered(old(rows), id, fingerprint, now)
      ensures rows == if done then old(rows)[id := old(rows)[id].(decision := decision, responder := responder)]
                      else old(rows)
    {
      if decision !in {"approve", "decline"} || responder == "" || id !in rows || !IsOpen(rows[id], fingerprint, now) {
        return false;
      }
      var before := rows;
      rows := rows[id := rows[id].(decision := decision, responder := responder)];
      if !stored {
        rows := before;
      }
      return stored;
    }

    method Decide(id: RequestId, decision: string, responder: string) returns (done: bool)
      modifies this
      ensures Put(rows, done) == DecideTx(old(rows), id, decision, responder)
      ensures done <==> id in old(rows) && old(rows)[id].decision == ""
      ensures rows == if done then old(rows)[id := old(rows)[id].(decision := decision, responder := responder)]
                      else old(rows)
    {
      if id !in rows || rows[id].decision != "" {
        return false;
      }
      rows := rows[id := rows[id].(decision := decision, responder := responder)];
      return true;
    }

    method ConsumeExact(id: RequestId, fingerprint: Fingerprint, now: nat, stored: bool) returns (done: bool)
      modifies this
      ensures Put(rows, done) == ConsumeTx(old(rows), id, fingerprint, now, stored)
      ensures done <==> stored && Spendable(old(rows), id, fingerprint, now)
      ensures rows == if done then old(rows)[id := old(rows)[id].(consumedAt := Some(now))] else old(rows)
    {
      if id !in rows || rows[id].decision != "approve" || rows[id].consumedAt.Some? {
        return false;
      }
      if !IsOpen(rows[id].(decision := ""), fingerprint, now) {
        return false;
      }
      var before := rows;
      rows := rows[id := rows[id].(consumedAt := Some(now))];
      if !stored {
        rows := before;
      }
      return stored;
    }
  }

  // ---- decisions ------------------------------------------------------------------------------

  datatype Outcome = Granted | Denied | TimedOut | Failed

  datatype Decision = Decision(id: nat, outcome: Outcome, fingerprint: Fingerprint, expires: Option<nat>)

  function Deadline(d: Decision, request: Request): nat {
    if d.expires.Some? then d.expires.value else request.expires
  }

  /** A decision is good up to and including its deadline. */
  predicate IsValidFor(d: Decision, request: Request, now: nat) {
    d.outcome == Granted && d.fingerprint == request.fingerprint && now <= Deadline(d, request)
  }

  function Lower(s: string): string {
    if s == [] then [] else [if 'A' <= s[0] <= 'Z' then s[0] + 32 as char else s[0]] + Lower(s[1..])
  }

  /** Anything that is not positively an approval of this request is a refusal. */
  function DecisionOf(id: nat, row: Row, request: Request): Decision {
    var answer := Lower(row.decision);
    if row.fingerprint != request.fingerprint then Decision(id, Failed, request.fingerprint, None)
    else if answer == "approve" then Decision(id, Granted, request.fingerprint, Some(request.expires))
    else if answer == "decline" then Decision(id, Denied, request.fingerprint, None)
    else Decision(id, Failed, request.fingerprint, None)
  }

  /** The gate's side of an answered poll: the decision, and whether the gate keeps its request for consumption. */
  datatype Answer = Answer(decision: Decision, kept: bool)

  function AnswerOf(id: nat, row: Row, request: Request): Answer {
    if row.fingerprint != request.fingerprint || row.responder == ""
    then Answer(Decision(id, Failed, request.fingerprint, None), false)
    else Answer(DecisionOf(id, row, request), true)
  }

  datatype Consumed = Consumed(requests: map<nat, Request>, rows: Rows, request: Option<Request>)

  /** Spending a decision: its request is forgotten whatever happens; `request` is what was consumed. */
  function SpendTx(requests: map<nat, Request>, rows: Rows, d: Decision, now: nat, stored: bool): Consumed {
    if d.id !in requests then Consumed(requests, rows, None)
    else
      var request, left := requests[d.id], requests - {d.id};
      if !IsValidFor(d, request, now) then Consumed(left, rows, None)
      else
        var put := ConsumeTx(rows, request.id, request.fingerprint, now, stored);
        Consumed(left, put.rows, if put.done then Some(request) else None)
  }

  /** Spending only forgets requests, and never alters an answer or a consumption. */
  lemma SpendKeeps(requests: map<nat, Request>, rows: Rows, d: Decision, now: nat, stored: bool)
    ensures var spent := SpendTx(requests, rows, d, now, stored);
      && Keeps(rows, spent.rows) && d.id !in spent.requests
      && forall other | other in spent.requests :: other in requests && spent.requests[other] == requests[other]
  {
    if d.id in requests {
      ConsumeKeeps(rows, requests[d.id].id, requests[d.id].fingerprint, now, stored);
    }
  }

  /** Letter by letter, capitals become small. */
  lemma {:induction false} LowerIsLetterByLetter(s: string, k: nat)
    requires k < |s|
    ensures |Lower(s)| == |s|
    ensures Lower(s)[k] == if 'A' <= s[k] <= 'Z' then (s[k] as int + 32) as char else s[k]
  {
    if k > 0 {
      LowerIsLetterByLetter(s[1..], k - 1);
    } else if |s| > 1 {
      LowerIsLetterByLetter(s[1..], 0);
    }
  }

  /** An attributed answer to exactly this request is a grant, a denial or neither, by its word. */
  lemma AnswersExactly(id: nat, row: Row, request: Request)
    ensures var answer := AnswerOf(id, row, request); var d := answer.decision;
      && d.id == id && d.fingerprint == request.fingerprint
      && (answer.kept <==> row.fingerprint == request.fingerprint && row.responder != "")
      && (d.outcome == Granted <==> answer.kept && Lower(row.decision) == "approve")
      && (d.outcome == Denied <==> answer.kept && Lower(row.decision) == "decline")
      && (d.outcome == Granted || d.outcome == Denied || d.outcome == Failed)
      && (d.outcome == Granted ==> forall now: nat :: IsValidFor(d, request, now) <==> now <= request.expires)
      && (d.outcome != Granted ==> forall now: nat :: !IsValidFor(d, request, now))
  {}

  /** A kept decision is spent exactly when it is a grant of its request, within its deadline, and its row can be
      consumed. */
  lemma SpendsExactlyWhen(requests: map<nat, Request>, rows: Rows, d: Decision, now: nat, stored: bool)
    ensures var spent := SpendTx(requests, rows, d, now, stored);
      && spent.requests == requests - {d.id}
      && (spent.request.Some? <==>
            && stored && d.id in requests
            && var request := requests[d.id];
              && d.outcome == Granted && d.fingerprint == request.fingerprint
              && now <= (if d.expires.Some? then d.expires.value else request.expires)
              && Spendable(rows, request.id, request.fingerprint, now))
      && (spent.request.Some? ==>
            && spent.request.value == requests[d.id]
            && var id := requests[d.id].id; spent.rows == rows[id := rows[id].(consumedAt := Some(now))])
      && (spent.request.None? ==> spent.rows == rows)
  {
    if d.id !in requests {
      assert requests - {d.id} == requests;
    }
  }

  class WebGate {
    const channel: Channel
    var requests: map<nat, Request>

    constructor (channel: Channel)
      ensures this.channel == channel && requests == map[]
    {
      this.channel := channel;
      requests := map[];
    }

    method Receive(id: nat, row: Row, request: Request) returns (d: Decision)
      modifies this
      ensures d == AnswerOf(id, row, request).decision
      ensures d.outcome == Granted <==>
                row.fingerprint == request.fingerprint && row.responder != "" && Lower(row.decision) == "approve"
      ensures d.outcome == Denied <==>
                row.fingerprint == request.fingerprint && row.responder != "" && Lower(row.decision) == "decline"
      ensures d.id == id && d.fingerprint == request.fingerprint
      ensures requests == if row.fingerprint == request.fingerprint && row.responder != ""
                          then old(requests)[id := request] else old(requests)
    {
      if row.fingerprint != request.fingerprint || row.responder == "" {
        return Decision(id, Failed, request.fingerprint, None);
      }
      requests := requests[id := request];
      return DecisionOf(id, row, request);
    }

    method Consume(d: Decision, now: nat, stored: bool) returns (done: bool)
      modifies this, channel
      ensures var spent := SpendTx(old(requests), old(channel.rows), d, now, stored);
        requests == spent.requests && channel.rows == spent.rows && done == spent.request.Some?
      ensures requests == old(requests) - {d.id}
      ensures done <==>
                && stored && d.id in old(requests)
                && var request := old(requests[d.id]);
                  && d.outcome == Granted && d.fingerprint == request.fingerprint
                  && now <= (if d.expires.Some? then d.expires.value else request.expires)
                  && Spendable(old(channel.rows), request.id, request.fingerprint, now)
      ensures !done ==> channel.rows == old(channel.rows)
      ensures done ==>
                var id := old(requests[d.id]).id;
                channel.rows == old(channel.rows)[id := old(channel.rows)[id].(consumedAt := Some(now))]
    {
      SpendsExactlyWhen(requests, channel.rows, d, now, stored);
      if d.id !in requests {
        return false;
      }
      var request := requests[d.id];
      requests := requests - {d.id};
      if !IsValidFor(d, request, now) {
        return false;
      }
      done := channel.ConsumeExact(request.id, request.fingerprint, now, stored);
    }
  }

  // ---- the last instant of an approval -----------------------------------------------------

  /** A request as the web gate and a person handle it: opened on a channel that has no row for it,
      answered, polled. */
  ghost predicate Approved(rows: Rows, request: Request, id: nat, responder: string, openedAt: nat, answeredAt: nat,
                           after: Rows, d: Decision)
  {
    && request.id !in rows
    && var put := OpenTx(rows, request, openedAt, true);
      && var decided :=
           DecideExactTx(put.rows, request.id, "approve", request.fingerprint, responder, answeredAt, true);
        && decided.done && after == decided.rows
        && d == AnswerOf(id, after[request.id], request).decision
  }

  lemma ApproveIsLower()
    ensures Lower("approve") == "approve"
  {}

  /** An approval can be spent exactly until the whole second in which it expires, as long as the write succeeds. */
  lemma ApprovalLastsToTheWholeSecond(
    rows: Rows, request: Request, id: nat, responder: string, openedAt: nat, answeredAt: nat, after: Rows, d: Decision,
    now: nat, stored: bool)
    requires Approved(rows, request, id, responder, openedAt, answeredAt, after, d)
    ensures SpendTx(map[id := request], after, d, now, stored).request.Some?
       <==> stored && now < WholeSeconds(request.expires)
  {
    ApproveIsLower();
    assert after[request.id] == Row(request.fingerprint, WholeSeconds(request.expires), "approve", responder, None);
    assert d == Decision(id, Granted, request.fingerprint, Some(request.expires));
  }

  /** The gate still calls the decision valid and the channel refuses it exactly from that whole second to
      the deadline, both included: at the deadline itself, at least. */
  lemma ValidDecisionIsRefusedExactlyInTheLastSecond(
    rows: Rows, request: Request, id: nat, responder: string, openedAt: nat, answeredAt: nat, after: Rows, d: Decision,
    now: nat)
    requires Approved(rows, request, id, responder, openedAt, answeredAt, after, d)
    ensures IsValidFor(d, request, now) && SpendTx(map[id := request], after, d, now, true).request.None?
       <==> WholeSeconds(request.expires) <= now <= request.expires
    ensures IsValidFor(d, request, request.expires)
         && SpendTx(map[id := request], after, d, request.expires, true).request.None?
  {
    ApproveIsLower();
    ApprovalLastsToTheWholeSecond(rows, request, id, responder, openedAt, answeredAt, after, d, now, true);
    ApprovalLastsToTheWholeSecond(rows, request, id, responder, openedAt, answeredAt, after, d, request.expires, true);
    assert d == Decision(id, Granted, request.fingerprint, Some(request.expires));
  }

  /** A decision authorises at most once: after it was spent, successfully or not, spending it again does nothing. */
  lemma DecisionIsSpentOnce(requests: map<nat, Request>, rows: Rows, d: Decision, now: nat, stored: bool,
                            later: nat, laterRows: Rows, laterStored: bool)
    ensures var spent := SpendTx(requests, rows, d, now, stored);
      SpendTx(spent.requests, laterRows, d, later, laterStored) == Consumed(spent.requests, laterRows, None)
  {}
}
