/** The buffered request: resolve the model to a plan, then walk the plan, failing over to
    another lane on retryable answers. The upstream and the clock are arbitrary. */
module Failover {
  import opened Basics
  import opened Pools
  import opened Dispatch
  import opened RetryAfter

  datatype AliasTarget = AliasTarget(provider: string, model: string)

  datatype Alias = Alias(name: string, targets: seq<AliasTarget>)

  datatype PlanStep = PlanStep(provider: Option<string>, model: Option<string>)

  function FindAlias(aliases: seq<Alias>, name: string): (found: Option<Alias>)
    ensures found.Some? ==> exists i :: IsFirstNamed(aliases, name, i) && found.value == aliases[i]
    ensures found.None? ==> forall a :: a in aliases ==> a.name != name
  {
    if aliases == [] then None
    else
      var n := |aliases| - 1;
      match FindAlias(aliases[..n], name)
      case Some(a) =>
        assert forall i :: IsFirstNamed(aliases[..n], name, i) ==> IsFirstNamed(aliases, name, i);
        Some(a)
      case None =>
        assert aliases[n].name == name ==> IsFirstNamed(aliases, name, n);
        if aliases[n].name == name then Some(aliases[n]) else None
  }

  predicate IsFirstNamed(aliases: seq<Alias>, name: string, i: int) {
    0 <= i < |aliases| && aliases[i].name == name && forall j :: 0 <= j < i ==> aliases[j].name != name
  }

  /** How many unrestricted attempts follow the providers known to offer the model. */
  function Anywhere(poolLen: nat, offering: nat): (n: nat)
    ensures n >= 1
    ensures offering + n == if offering >= 4 || offering >= poolLen then offering + 1
                            else if poolLen > 4 then 4
                            else poolLen
  {
    var clamped: nat := if poolLen < 1 then 1 else if poolLen > 4 then 4 else poolLen;
    var left: nat := if offering <= clamped then clamped - offering else 0;
    if left < 1 then 1 else left
  }

  /** An alias expands to its targets in order; any other model tries the providers that list
      it, then any lane at all. */
  function ResolvePlan(model: Option<string>, aliases: seq<Alias>, poolLen: nat, offering: seq<string>)
    : (plan: seq<PlanStep>)
    ensures |plan| == 0 <==>
              model.Some? && FindAlias(aliases, model.value).Some? &&
                  FindAlias(aliases, model.value).value.targets == []
    ensures model.Some? && FindAlias(aliases, model.value).Some? ==>
              var targets := FindAlias(aliases, model.value).value.targets;
              |plan| == |targets| && forall i :: 0 <= i < |plan| ==>
                plan[i].provider == Some(targets[i].provider) && plan[i].model == Some(targets[i].model)
    ensures model.None? || FindAlias(aliases, model.value).None? ==>
              && |offering| < |plan|
              && |plan| == (if |offering| >= 4 || |offering| >= poolLen then |offering| + 1
                            else if poolLen > 4 then 4
                            else poolLen)
              && forall i :: 0 <= i < |plan| ==>
                   plan[i] == PlanStep(if i < |offering| then Some(offering[i]) else None, None)
  {
    var alias := if model.Some? then FindAlias(aliases, model.value) else None;
    if alias.Some? then
      var targets := alias.value.targets;
      seq(|targets|, i requires 0 <= i < |targets| => PlanStep(Some(targets[i].provider), Some(targets[i].model)))
    else
      seq(|offering|, i requires 0 <= i < |offering| => PlanStep(Some(offering[i]), None))
      + seq(Anywhere(poolLen, |offering|), _ => PlanStep(None, None))
  }

  // ---- Answers ----

  predicate IsRetryable(status: nat) {
    status in {408, 429, 500, 502, 503, 504, 529}
  }

  /** So nothing below 400 is, of the client's errors only a timeout and a rebuff, and of the
      server's only some. */
  lemma {:induction false} RetryableAre(status: nat)
    ensures IsRetryable(status) <==>
              status == 408 || status == 429 || status == 529 || (500 <= status <= 504 && status != 501)
  {
  }

  // ---- The walk ----

  datatype Answer = Status(code: nat, retryAfter: Option<string>) | Unreachable | Late

  /** What the world does to one step: whether the model permit and the rate slot come before
      the deadline, and what the upstream answers. */
  datatype Fate = Fate(admitted: bool, slotInTime: bool, answer: Answer)

  datatype Response = Relayed(status: nat) | BadGateway | NoCapacity | DeadlineExceeded

  /** What the request does to the rest of the proxy. */
  datatype Act =
    | TakeModel(model: string)
    | FreeModel(model: string)
    | Send(step: nat, lane: nat, model: string)
    | BenchLane(lane: nat, secs: nat)
    | NoteRebuff(model: string, lane: nat)

  /** Model permits held after these acts. */
  function Held(acts: seq<Act>): multiset<string> {
    if acts == [] then multiset{}
    else
      var n := |acts| - 1;
      match acts[n]
      case TakeModel(m) => Held(acts[..n]) + multiset{m}
      case FreeModel(m) => Held(acts[..n]) - multiset{m}
      case _ => Held(acts[..n])
  }

  lemma {:induction false} HeldGrows(acts: seq<Act>, act: Act)
    ensures Held(acts + [act]) == match act
                                  case TakeModel(m) => Held(acts) + multiset{m}
                                  case FreeModel(m) => Held(acts) - multiset{m}
                                  case _ => Held(acts)
  {
    assert (acts + [act])[..|acts|] == acts;
  }

  datatype Sent = Sent(step: nat, lane: nat)

  function StepModel(step: PlanStep, fallback: string): string {
    if step.model.Some? then step.model.value else fallback
  }

  /** The sends among these acts. */
  function SentIn(acts: seq<Act>): seq<Sent> {
    if acts == [] then []
    else
      var n := |acts| - 1;
      SentIn(acts[..n]) + if acts[n].Send? then [Sent(acts[n].step, acts[n].lane)] else []
  }

  /** Each send is for its step's model, and is made holding that model's permit and no other. */
  ghost predicate PermittedAt(acts: seq<Act>, plan: seq<PlanStep>, fallback: string, k: nat)
    requires k < |acts|
  {
    acts[k].Send? ==>
      && acts[k].step < |plan|
      && (plan[acts[k].step].model == Some(acts[k].model)
          || (plan[acts[k].step].model == None && acts[k].model == fallback))
      && Held(acts[..k]) == multiset{acts[k].model}
  }

  ghost predicate Logged(acts: seq<Act>, sent: seq<Sent>, plan: seq<PlanStep>, fallback: string) {
    SentIn(acts) == sent && forall k :: 0 <= k < |acts| ==> PermittedAt(acts, plan, fallback, k)
  }

  lemma {:induction false} LogGrows(acts: seq<Act>, sent: seq<Sent>, plan: seq<PlanStep>, fallback: string, act: Act)
    requires Logged(acts, sent, plan, fallback)
    requires act.Send? ==>
               && act.step < |plan| && act.model == StepModel(plan[act.step], fallback)
               && Held(acts) == multiset{act.model}
    ensures Logged(acts + [act], sent + if act.Send? then [Sent(act.step, act.lane)] else [], plan, fallback)
  {
    var all := acts + [act];
    assert all[..|acts|] == acts;
    forall k | 0 <= k < |all| ensures PermittedAt(all, plan, fallback, k) {
      if k < |acts| {
        assert PermittedAt(acts, plan, fallback, k);
        assert all[..k] == acts[..k];
      }
    }
  }

  function Ask(step: PlanStep, excluded: seq<nat>, session: Option<nat>, wire: Protocol): Request {
    Request(step.provider, excluded, session, Some(wire))
  }

  ghost predicate NoLane(lanes: seq<LaneSpec>, step: PlanStep, excluded: seq<nat>, session: Option<nat>, wire: Protocol)
    {
    forall i: nat :: i < |lanes| ==> !Eligible(lanes[i], i, Ask(step, excluded, session, wire))
  }

  /** Sends go to pairwise distinct lanes, each of the step's provider and the request's
      protocol, at increasing steps. */
  ghost predicate SendsFit(sent: seq<Sent>, plan: seq<PlanStep>, lanes: seq<LaneSpec>, wire: Protocol, begun: nat) {
    && begun <= |plan|
    && (forall k :: 0 <= k < |sent| ==>
          && sent[k].step < begun && sent[k].lane < |lanes|
          && lanes[sent[k].lane].protocol == wire
          && (plan[sent[k].step].provider.Some? ==> lanes[sent[k].lane].provider == plan[sent[k].step].provider.value))
    && (forall j, k :: 0 <= j < k < |sent| ==> sent[j].lane != sent[k].lane && sent[j].step < sent[k].step)
  }

  predicate Rebuffed(a: Answer) {
    a.Status? && IsRetryable(a.code)
  }

  /** A send whose answer is retryable, and no other, is followed at once by benching its lane
      for the time asked and by telling the governor. */
  ghost predicate RecordedAt(acts: seq<Act>, fates: seq<Fate>, k: nat)
    requires k < |acts|
  {
    && (acts[k].Send? ==>
          acts[k].step < |fates| &&
          (Rebuffed(fates[acts[k].step].answer) ==>
             && k + 2 < |acts|
             && acts[k + 1] == BenchLane(acts[k].lane, BenchSecs(fates[acts[k].step].answer.retryAfter))
             && acts[k + 2] == NoteRebuff(acts[k].model, acts[k].lane)))
    && (acts[k].BenchLane? ==>
          k > 0 && acts[k - 1].Send? && acts[k - 1].step < |fates| && Rebuffed(fates[acts[k - 1].step].answer))
    && (acts[k].NoteRebuff? ==> k > 0 && acts[k - 1].BenchLane?)
  }

  ghost predicate RebuffsRecorded(acts: seq<Act>, fates: seq<Fate>) {
    forall k :: 0 <= k < |acts| ==> RecordedAt(acts, fates, k)
  }

  lemma {:induction false} RecordsAppend(acts: seq<Act>, tail: seq<Act>, fates: seq<Fate>)
    requires RebuffsRecorded(acts, fates) && RebuffsRecorded(tail, fates)
    ensures RebuffsRecorded(acts + tail, fates)
  {
    var all := acts + tail;
    forall k | 0 <= k < |all| ensures RecordedAt(all, fates, k) {
      if k < |acts| {
        assert RecordedAt(acts, fates, k);
      } else {
        assert RecordedAt(tail, fates, k - |acts|);
        assert all[k] == tail[k - |acts|];
        assert k - |acts| > 0 ==> all[k - 1] == tail[k - |acts| - 1];
        assert k + 1 < |all| ==> all[k + 1] == tail[k + 1 - |acts|];
        assert k + 2 < |all| ==> all[k + 2] == tail[k + 2 - |acts|];
      }
    }
  }

  /** One attempt: send, and note a rebuff. */
  function Attempt(step: nat, lane: nat, model: string, answer: Answer): seq<Act> {
    [Send(step, lane, model)] +
    if Rebuffed(answer) then [BenchLane(lane, BenchSecs(answer.retryAfter)), NoteRebuff(model, lane)] else []
  }

  lemma {:induction false} AttemptRecorded(acts: seq<Act>, fates: seq<Fate>, step: nat, lane: nat, model: string)
    requires RebuffsRecorded(acts, fates) && step < |fates|
    ensures RebuffsRecorded(acts + Attempt(step, lane, model, fates[step].answer), fates)
  {
    var tail := Attempt(step, lane, model, fates[step].answer);
    forall k | 0 <= k < |tail| ensures RecordedAt(tail, fates, k) {
      assert k == 0 || k == 1 || k == 2;
    }
    RecordsAppend(acts, tail, fates);
  }

  lemma {:induction false} AttemptHoldsNothing(acts: seq<Act>, step: nat, lane: nat, model: string, answer: Answer)
    ensures Held(acts + Attempt(step, lane, model, answer)) == Held(acts)
  {
    var tail := Attempt(step, lane, model, answer);
    HeldGrows(acts, tail[0]);
    if Rebuffed(answer) {
      HeldGrows(acts + [tail[0]], tail[1]);
      HeldGrows(acts + [tail[0]] + [tail[1]], tail[2]);
      assert acts + tail == acts + [tail[0]] + [tail[1]] + [tail[2]];
    } else {
      assert acts + tail == acts + [tail[0]];
    }
  }

  lemma {:induction false} AttemptLogged(acts: seq<Act>, sent: seq<Sent>, plan: seq<PlanStep>, fallback: string,
                                         step: nat, lane: nat, model: string, answer: Answer)
    requires Logged(acts, sent, plan, fallback) && Held(acts) == multiset{model}
    requires step < |plan| && model == StepModel(plan[step], fallback)
    ensures Logged(acts + Attempt(step, lane, model, answer), sent + [Sent(step, lane)], plan, fallback)
  {
    var tail, sent' := Attempt(step, lane, model, answer), sent + [Sent(step, lane)];
    LogGrows(acts, sent, plan, fallback, tail[0]);
    assert sent' + [] == sent';
    if Rebuffed(answer) {
      LogGrows(acts + [tail[0]], sent', plan, fallback, tail[1]);
      LogGrows(acts + [tail[0]] + [tail[1]], sent', plan, fallback, tail[2]);
      assert acts + tail == acts + [tail[0]] + [tail[1]] + [tail[2]];
    } else {
      assert acts + tail == acts + [tail[0]];
    }
  }

  lemma {:induction false} OtherActRecorded(acts: seq<Act>, fates: seq<Fate>, act: Act)
    requires RebuffsRecorded(acts, fates) && (act.TakeModel? || act.FreeModel?)
    ensures RebuffsRecorded(acts + [act], fates)
  {
    assert RecordedAt([act], fates, 0);
    RecordsAppend(acts, [act], fates);
  }

  // ---- What the walk has come by ----

  ghost predicate SentAt(sent: seq<Sent>, p: nat) {
    exists k :: 0 <= k < |sent| && sent[k].step == p
  }

  /** Lane `i` was sent to at a step before `p`. */
  ghost predicate Tried(sent: seq<Sent>, i: nat, p: nat) {
    exists k :: 0 <= k < |sent| && sent[k].lane == i && sent[k].step < p
  }

  predicate Suits(lane: LaneSpec, step: PlanStep, wire: Protocol) {
    lane.protocol == wire && (step.provider == None || step.provider == Some(lane.provider))
  }

  /** Every lane that suits step `p` was tried before it. */
  ghost predicate AllTried(sent: seq<Sent>, plan: seq<PlanStep>, lanes: seq<LaneSpec>, wire: Protocol, p: nat)
    requires p < |plan|
  {
    forall i: nat :: i < |lanes| && Suits(lanes[i], plan[p], wire) ==> Tried(sent, i, p)
  }

  predicate MayFailOver(a: Answer) {
    a.Unreachable? || (a.Status? && IsRetryable(a.code))
  }

  /** The walk went on past step `p`: in time for its permit and its slot, and either what it sent
      was rebuffed or did not arrive, or there was no lane left to send to. */
  ghost predicate PassedOver(sent: seq<Sent>, plan: seq<PlanStep>, lanes: seq<LaneSpec>, wire: Protocol,
                             fates: seq<Fate>, p: nat)
    requires p < |plan| == |fates|
  {
    && fates[p].admitted && fates[p].slotInTime
    && (SentAt(sent, p) ==> MayFailOver(fates[p].answer))
    && (!SentAt(sent, p) ==> AllTried(sent, plan, lanes, wire, p))
  }

  ghost predicate AllPassedOver(sent: seq<Sent>, plan: seq<PlanStep>, lanes: seq<LaneSpec>, wire: Protocol,
                                fates: seq<Fate>, n: nat)
    requires n <= |plan| == |fates|
  {
    forall p :: 0 <= p < n ==> PassedOver(sent, plan, lanes, wire, fates, p)
  }

  /** What the caller is answered, given where the walk ended: the deadline, if that step missed it
      waiting for its permit, for its slot or for the answer; no capacity, if it found no lane and
      was the last; and otherwise what the upstream answered, or that it could not be reached. */
  ghost predicate EndsAs(response: Response, sent: seq<Sent>, begun: nat, plan: seq<PlanStep>, lanes: seq<LaneSpec>,
                         wire: Protocol, fates: seq<Fate>)
    requires begun <= |plan| == |fates|
  {
    if begun == 0 then plan == [] && response == NoCapacity
    else
      var p := begun - 1;
      if !fates[p].admitted || !fates[p].slotInTime then response == DeadlineExceeded && !SentAt(sent, p)
      else if !SentAt(sent, p) then
        response == NoCapacity && begun == |plan| && AllTried(sent, plan, lanes, wire, p)
      else
        && (MayFailOver(fates[p].answer) ==> begun == |plan|)
        && match fates[p].answer
           case Status(code, _) => response == Relayed(code)
           case Unreachable => response == BadGateway
           case Late => response == DeadlineExceeded
  }

  /** The walk before step `i`: every lane tried so far has been given up on, for cause. */
  ghost predicate Underway(sent: seq<Sent>, acts: seq<Act>, excluded: seq<nat>, plan: seq<PlanStep>,
                           lanes: seq<LaneSpec>, wire: Protocol, fallback: string, fates: seq<Fate>, i: nat)
    requires |fates| == |plan|
  {
    && SendsFit(sent, plan, lanes, wire, i) && |sent| <= i
    && (forall x :: x in excluded <==> Tried(sent, x, i))
    && AllPassedOver(sent, plan, lanes, wire, fates, i)
    && (i == |plan| && i > 0 ==> !SentAt(sent, i - 1))
    && Settled(acts, sent, plan, fallback, fates)
  }

  /** The whole contract of a walk that answered after entering `begun` steps.
      It has sent at most once per step, to fitting and pairwise distinct lanes, each time for
      the step's model and holding that model's permit and no other; it has no permit left; it
      recorded every rebuff. Every step but the last it entered was passed over for cause: so the
      first send that is answered by anything but a retryable status, or does arrive, ends it. And
      where it ended decides the answer: the deadline if the step missed it, the upstream's status
      or the failure to reach it if the step sent, and otherwise that no lane is left. */
  ghost predicate Over(response: Response, sent: seq<Sent>, acts: seq<Act>, begun: nat, plan: seq<PlanStep>,
                       lanes: seq<LaneSpec>, wire: Protocol, fallback: string, fates: seq<Fate>)
    requires |fates| == |plan|
  {
    && SendsFit(sent, plan, lanes, wire, begun) && |sent| <= begun <= |plan|
    && Settled(acts, sent, plan, fallback, fates)
    && AllPassedOver(sent, plan, lanes, wire, fates, if begun == 0 then 0 else begun - 1)
    && EndsAs(response, sent, begun, plan, lanes, wire, fates)
  }

  /** So the upstream's answers alone say when the walk stops: it relays the answer to its first
      send that was neither rebuffed nor lost, and sends no more; a retryable status only if the
      plan was at its end. */
  lemma {:induction false} StopsAtTheFirstAnswer(response: Response, sent: seq<Sent>, acts: seq<Act>, begun: nat,
                                                 plan: seq<PlanStep>, lanes: seq<LaneSpec>, wire: Protocol,
                                                 fallback: string, fates: seq<Fate>, k: nat)
    requires |fates| == |plan| && Over(response, sent, acts, begun, plan, lanes, wire, fallback, fates)
    requires k < |sent|
    ensures var answer := fates[sent[k].step].answer;
      && (k < |sent| - 1 || response == NoCapacity ==>
            answer.Unreachable? || (answer.Status? && answer.code in {408, 429, 500, 502, 503, 504, 529}))
      && (answer.Status? && answer.code !in {408, 429, 500, 502, 503, 504, 529} ==>
            k == |sent| - 1 && response == Relayed(answer.code))
  {
    var p := sent[k].step;
    assert SentAt(sent, p);
    if k < |sent| - 1 {
      assert sent[k].step < sent[|sent| - 1].step;
    }
    if p < begun - 1 {
      assert PassedOver(sent, plan, lanes, wire, fates, p);
    } else if k < |sent| - 1 {
      assert false;
    }
  }

  /** What an answer means for the walk: the response, or `None` to fail over. */
  function Verdict(answer: Answer, isLast: bool): Option<Response> {
    match answer
    case Status(code, _) => if IsRetryable(code) && !isLast then None else Some(Relayed(code))
    case Unreachable => if isLast then Some(BadGateway) else None
    case Late => Some(DeadlineExceeded)
  }

  /** Walk the plan. `begun` counts the steps entered and `excluded` the lanes given up on. */
  method Walk(plan: seq<PlanStep>, lanes: seq<LaneSpec>, wire: Protocol, session: Option<nat>, fallback: string,
              fates: seq<Fate>)
    returns (response: Response, sent: seq<Sent>, acts: seq<Act>, begun: nat)
    requires |fates| == |plan|
    ensures Over(response, sent, acts, begun, plan, lanes, wire, fallback, fates)
  {
    sent, acts, begun := [], [], 0;
    var excluded: seq<nat> := [];
    while begun < |plan|
      invariant begun <= |plan|
      invariant Underway(sent, acts, excluded, plan, lanes, wire, fallback, fates, begun)
    {
      var verdict;
      verdict, sent, acts, excluded :=
        TakeStep(begun, sent, acts, excluded, plan, lanes, wire, session, fallback, fates);
      begun := begun + 1;
      if verdict.Some? {
        return verdict.value, sent, acts, begun;
      }
    }
    response := NoCapacity;
    if begun > 0 {
      assert PassedOver(sent, plan, lanes, wire, fates, begun - 1);
      assert EndsAs(response, sent, begun, plan, lanes, wire, fates);
    }
  }

  /** One step of the plan: gate on the model, take a slot, send, and judge the answer. */
  method TakeStep(i: nat, sent0: seq<Sent>, acts0: seq<Act>, excluded0: seq<nat>, plan: seq<PlanStep>,
                  lanes: seq<LaneSpec>, wire: Protocol, session: Option<nat>, fallback: string, fates: seq<Fate>)
    returns (verdict: Option<Response>, sent: seq<Sent>, acts: seq<Act>, excluded: seq<nat>)
    requires |fates| == |plan| && i < |plan|
    requires Underway(sent0, acts0, excluded0, plan, lanes, wire, fallback, fates, i)
    ensures verdict.None? ==> Underway(sent, acts, excluded, plan, lanes, wire, fallback, fates, i + 1)
    ensures verdict.Some? ==> Over(verdict.value, sent, acts, i + 1, plan, lanes, wire, fallback, fates)
  {
    sent, acts, excluded := sent0, acts0, excluded0;
    NothingSentYet(sent0, plan, lanes, wire, i);
    if !fates[i].admitted {
      return Some(DeadlineExceeded), sent, acts, excluded;
    }
    if !fates[i].slotInTime {
      acts := TakenAndFreed(acts, sent, plan, fallback, fates, i);
      return Some(DeadlineExceeded), sent, acts, excluded;
    }
    var slot := AnySlot(lanes, Ask(plan[i], excluded, session, wire));
    if slot.None? {
      acts := TakenAndFreed(acts, sent, plan, fallback, fates, i);
      SkippedForCause(sent, excluded, plan, lanes, wire, session, fates, i);
      return None, sent, acts, excluded;
    }
    verdict, sent, acts, excluded :=
      SendTo(slot.value, i, sent0, acts0, excluded0, plan, lanes, wire, session, fallback, fates);
  }

  method SendTo(lane: nat, i: nat, sent0: seq<Sent>, acts0: seq<Act>, excluded0: seq<nat>, plan: seq<PlanStep>,
                lanes: seq<LaneSpec>, wire: Protocol, session: Option<nat>, fallback: string, fates: seq<Fate>)
    returns (verdict: Option<Response>, sent: seq<Sent>, acts: seq<Act>, excluded: seq<nat>)
    requires |fates| == |plan| && i < |plan| && fates[i].admitted && fates[i].slotInTime
    requires Underway(sent0, acts0, excluded0, plan, lanes, wire, fallback, fates, i)
    requires lane < |lanes| && Eligible(lanes[lane], lane, Ask(plan[i], excluded0, session, wire))
    ensures verdict.None? ==> Underway(sent, acts, excluded, plan, lanes, wire, fallback, fates, i + 1)
    ensures verdict.Some? ==> Over(verdict.value, sent, acts, i + 1, plan, lanes, wire, fallback, fates)
  {
    AttemptFits(sent0, plan, lanes, wire, i, lane, excluded0, session);
    SendingKeepsThePast(sent0, plan, lanes, wire, fates, i, lane);
    sent := sent0 + [Sent(i, lane)];
    acts := TakenSentAndFreed(acts0, sent0, plan, fallback, fates, i, lane);
    verdict := Verdict(fates[i].answer, i == |plan| - 1);
    excluded := if verdict.None? then excluded0 + [lane] else excluded0;
    TriedOneMore(sent0, i, lane, i + 1);
  }

  lemma {:induction false} NothingSentYet(sent: seq<Sent>, plan: seq<PlanStep>, lanes: seq<LaneSpec>, wire: Protocol,
                                          i: nat)
    requires SendsFit(sent, plan, lanes, wire, i)
    ensures !SentAt(sent, i) && SendsFit(sent, plan, lanes, wire, if i < |plan| then i + 1 else i)
    ensures forall x :: Tried(sent, x, i) <==> Tried(sent, x, i + 1)
  {
  }

  lemma {:induction false} SkippedForCause(sent: seq<Sent>, excluded: seq<nat>, plan: seq<PlanStep>,
                                           lanes: seq<LaneSpec>, wire: Protocol, session: Option<nat>,
                                           fates: seq<Fate>, i: nat)
    requires |fates| == |plan| && i < |plan| && fates[i].admitted && fates[i].slotInTime && !SentAt(sent, i)
    requires (forall x :: x in excluded <==> Tried(sent, x, i)) && NoLane(lanes, plan[i], excluded, session, wire)
    ensures PassedOver(sent, plan, lanes, wire, fates, i)
  {
    forall x: nat | x < |lanes| && Suits(lanes[x], plan[i], wire) ensures Tried(sent, x, i) {
      assert !Eligible(lanes[x], x, Ask(plan[i], excluded, session, wire));
    }
  }

  /** One more send leaves what was passed over passed over. */
  lemma {:induction false} SendingKeepsThePast(sent: seq<Sent>, plan: seq<PlanStep>, lanes: seq<LaneSpec>,
                                               wire: Protocol, fates: seq<Fate>, i: nat, lane: nat)
    requires i < |plan| == |fates| && AllPassedOver(sent, plan, lanes, wire, fates, i)
    ensures AllPassedOver(sent + [Sent(i, lane)], plan, lanes, wire, fates, i) && SentAt(sent + [Sent(i, lane)], i)
  {
    var all := sent + [Sent(i, lane)];
    assert all[|sent|].step == i;
    forall p | 0 <= p < i ensures PassedOver(all, plan, lanes, wire, fates, p) {
      assert PassedOver(sent, plan, lanes, wire, fates, p);
      if SentAt(sent, p) {
        var k :| 0 <= k < |sent| && sent[k].step == p;
        assert all[k].step == p;
      }
      forall x: nat | Tried(sent, x, p) ensures Tried(all, x, p) {
        var k :| 0 <= k < |sent| && sent[k].lane == x && sent[k].step < p;
        assert all[k] == sent[k];
      }
    }
  }

  lemma {:induction false} TriedOneMore(sent: seq<Sent>, i: nat, lane: nat, next: nat)
    requires next == i + 1
    ensures forall x :: Tried(sent + [Sent(i, lane)], x, next) <==> Tried(sent, x, next) || x == lane
    ensures (forall k :: 0 <= k < |sent| ==> sent[k].step < i) ==>
              forall x :: Tried(sent, x, i) <==> Tried(sent, x, next)
  {
    var all := sent + [Sent(i, lane)];
    assert all[|sent|] == Sent(i, lane);
    forall x: nat | Tried(sent, x, next) ensures Tried(all, x, next) {
      var k :| 0 <= k < |sent| && sent[k].lane == x && sent[k].step < next;
      assert all[k] == sent[k];
    }
    forall x: nat | Tried(all, x, next) && x != lane ensures Tried(sent, x, next) {
      var k :| 0 <= k < |all| && all[k].lane == x && all[k].step < next;
      assert all[k] == sent[k];
    }
  }

  /** What one step may leave behind: no permit held, every rebuff and every send recorded. */
  ghost predicate Settled(acts: seq<Act>, sent: seq<Sent>, plan: seq<PlanStep>, fallback: string, fates: seq<Fate>) {
    Held(acts) == multiset{} && RebuffsRecorded(acts, fates) && Logged(acts, sent, plan, fallback)
  }

  /** The scope of a model permit that came to nothing. */
  method TakenAndFreed(before: seq<Act>, ghost sent: seq<Sent>, plan: seq<PlanStep>, fallback: string,
                       ghost fates: seq<Fate>, step: nat)
    returns (acts: seq<Act>)
    requires Settled(before, sent, plan, fallback, fates) && step < |plan|
    ensures Settled(acts, sent, plan, fallback, fates)
    ensures acts == before + [TakeModel(StepModel(plan[step], fallback)), FreeModel(StepModel(plan[step], fallback))]
  {
    var model := StepModel(plan[step], fallback);
    acts := before + [TakeModel(model)];
    PermitAct(before, sent, plan, fallback, fates, TakeModel(model));
    PermitAct(acts, sent, plan, fallback, fates, FreeModel(model));
    acts := acts + [FreeModel(model)];
  }

  lemma {:induction false} PermitAct(acts: seq<Act>, sent: seq<Sent>, plan: seq<PlanStep>, fallback: string,
                                     fates: seq<Fate>, act: Act)
    requires RebuffsRecorded(acts, fates) && Logged(acts, sent, plan, fallback) && (act.TakeModel? || act.FreeModel?)
    ensures RebuffsRecorded(acts + [act], fates) && Logged(acts + [act], sent, plan, fallback)
    ensures Held(acts + [act]) == if act.TakeModel? then Held(acts) + multiset{act.model}
                                  else Held(acts) - multiset{act.model}
  {
    HeldGrows(acts, act);
    OtherActRecorded(acts, fates, act);
    LogGrows(acts, sent, plan, fallback, act);
    assert sent + [] == sent;
  }

  /** The scope of a model permit with one attempt inside. */
  method TakenSentAndFreed(before: seq<Act>, ghost sent: seq<Sent>, plan: seq<PlanStep>, fallback: string,
                           fates: seq<Fate>, step: nat, lane: nat)
    returns (acts: seq<Act>)
    requires Settled(before, sent, plan, fallback, fates) && step < |plan| == |fates|
    ensures Settled(acts, sent + [Sent(step, lane)], plan, fallback, fates)
    ensures var model := StepModel(plan[step], fallback);
            acts == before + [TakeModel(model)] + Attempt(step, lane, model, fates[step].answer) + [FreeModel(model)]
  {
    var model := StepModel(plan[step], fallback);
    acts := before + [TakeModel(model)];
    PermitAct(before, sent, plan, fallback, fates, TakeModel(model));
    AttemptRecorded(acts, fates, step, lane, model);
    AttemptHoldsNothing(acts, step, lane, model, fates[step].answer);
    AttemptLogged(acts, sent, plan, fallback, step, lane, model, fates[step].answer);
    acts := acts + Attempt(step, lane, model, fates[step].answer);
    PermitAct(acts, sent + [Sent(step, lane)], plan, fallback, fates, FreeModel(model));
    acts := acts + [FreeModel(model)];
  }

  /** Whatever the dispatcher picks: some eligible lane, or `None` when there is none. */
  method AnySlot(lanes: seq<LaneSpec>, q: Request) returns (slot: Option<nat>)
    ensures slot.Some? ==> slot.value < |lanes| && Eligible(lanes[slot.value], slot.value, q)
    ensures slot.None? ==> forall i: nat :: i < |lanes| ==> !Eligible(lanes[i], i, q)
  {
    if i: nat :| i < |lanes| && Eligible(lanes[i], i, q) {
      return Some(i);
    }
    return None;
  }

  lemma {:induction false} AttemptFits(sent: seq<Sent>, plan: seq<PlanStep>, lanes: seq<LaneSpec>, wire: Protocol,
                                       i: nat, idx: nat, excluded: seq<nat>, session: Option<nat>)
    requires i < |plan| && SendsFit(sent, plan, lanes, wire, i)
    requires idx < |lanes| && Eligible(lanes[idx], idx, Ask(plan[i], excluded, session, wire))
    requires forall k :: 0 <= k < |sent| ==> sent[k].lane in excluded
    ensures SendsFit(sent + [Sent(i, idx)], plan, lanes, wire, i + 1)
  {
  }
}
