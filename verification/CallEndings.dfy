/**
 How a submission ends, over all interleavings: when the id a call bound to its key is enqueued, which
 endings leave the binding in place, and so when an id given to a duplicate names an enqueued task.
 */
module CallEndings {
  import opened Common
  import opened IntentTasks
  import opened QueueProtocol
  import opened Submissions

  /** One step of a call itself: the outcome that came back to it, or its end without one. */
  datatype Own = Came(outcome: Outcome) | Gone

  /** What a step of the run is to call `v`, once its SET NX binds the key. */
  function OwnPart(before: Desk, a: DeskAction, v: TaskId): seq<Own> {
    if a.Proceed? && a.caller == v && v in before.calls
       && (v in Holders(before.bound) || v in Holders(ApplyDesk(before, a).bound)) then [Came(a.outcome)]
    else if a.GiveUp? && a.caller == v && v in before.calls && v in Holders(before.bound) then [Gone]
    else []
  }

  /** The call's own steps, from the SET NX that bound its key on. */
  function Since(trace: seq<DeskAction>, v: TaskId): seq<Own>
    decreases |trace|
  {
    if trace == [] then []
    else
      var last := |trace| - 1;
      Since(trace[..last], v) + OwnPart(RunDesk(EMPTY_DESK, trace[..last]), trace[last], v)
  }

  predicate WentWell(s: seq<Own>, i: nat) {
    i < |s| && s[i] == Came(Succeeds)
  }

  predicate Failed(s: seq<Own>, i: nat) {
    i < |s| && s[i].Came? && s[i].outcome.Raises?
  }

  /** The reply to SET NX came, the session was refreshed, and the lookup for the priority ended somehow. */
  predicate Built(s: seq<Own>) {
    WentWell(s, 0) && WentWell(s, 1) && 2 < |s| && s[2].Came?
  }

  /** ... and then the enqueue transaction ran, whether or not its reply came. */
  predicate Sent(s: seq<Own>) {
    Built(s) && 3 < |s| && s[3].Came? && Ran(s[3].outcome)
  }

  /** The session's refresh or the enqueue failed, and the release came to an end. */
  predicate Released(s: seq<Own>) {
    || (|s| == 3 && WentWell(s, 0) && Failed(s, 1) && s[2].Came?)
    || (|s| == 5 && Built(s) && Failed(s, 3) && s[4].Came?)
  }

  /** ... having run. */
  predicate ReleaseRan(s: seq<Own>) {
    Released(s) && Ran(s[|s| - 1].outcome)
  }

  /** The ways a call that bound its key can end. */
  predicate EndedLike(s: seq<Own>) {
    || (|s| == 1 && Failed(s, 0))
    || Released(s)
    || (|s| == 4 && Built(s) && WentWell(s, 3))
    || (s != [] && s[|s| - 1] == Gone)
  }

  /** Where a call stands that has its key. */
  predicate StandsAt(s: seq<Own>, step: CallStep) {
    match step
    case TouchSession => |s| == 1 && WentWell(s, 0)
    case BuildTask => |s| == 2 && WentWell(s, 0) && WentWell(s, 1)
    case EnqueueTask => |s| == 3 && Built(s)
    case Release => (|s| == 2 && WentWell(s, 0) && Failed(s, 1)) || (|s| == 4 && Built(s) && Failed(s, 3))
    case _ => false
  }

  ghost predicate CallOk(desk: Desk, v: TaskId, s: seq<Own>) {
    if v !in Holders(desk.bound) then s == [] && v !in desk.enqueued
    else
      && (v in desk.enqueued <==> Sent(s))
      && if v in desk.calls then StandsAt(s, desk.calls[v].step) else EndedLike(s)
  }

  /** Nobody else's step touches the call, its binding or its message. */
  lemma OthersKeepCallOk(desk: Desk, a: DeskAction, v: TaskId, s: seq<Own>)
    requires DeskOk(desk) && CallOk(desk, v, s)
    requires !((a.Proceed? || a.GiveUp?) && a.caller == v)
    ensures CallOk(ApplyDesk(desk, a), v, s) && OwnPart(desk, a, v) == []
  {
    hide BoundOnce, AnswersOk, RemovalsOk, NoRepeats, Builds, Stripped, StandsAt, EndedLike, Sent, MakeInput;
    match a
    case Begin(w, key, raw) =>
    case Proceed(w, outcome) =>
      if w in desk.calls {
        ProceedKeepsOthers(desk, w, outcome, v);
      }
    case GiveUp(w) =>
    case Expire(key) =>
  }

  lemma ProceedKeepsOthers(desk: Desk, w: TaskId, outcome: Outcome, v: TaskId)
    requires w in desk.calls && v != w
    ensures var after := ProceedCall(desk, w, outcome);
            && (v in Holders(after.bound) <==> v in Holders(desk.bound))
            && (v in after.enqueued <==> v in desk.enqueued)
            && (v in after.calls <==> v in desk.calls)
            && (v in desk.calls ==> after.calls[v] == desk.calls[v])
  {
    hide Holders, Builds, Stripped;
    HoldersAppend(desk.bound, Binding(desk.calls[w].key, w));
    match desk.calls[w].step
    case SetNx(_) =>
    case Get(_) =>
    case _ =>
  }

  /** The SET NX that binds a key, and what the call then knows. */
  lemma BindingKeepsCallOk(desk: Desk, v: TaskId, outcome: Outcome, s: seq<Own>)
    requires DeskOk(desk) && CallOk(desk, v, s) && v in desk.calls
    requires desk.calls[v].step.SetNx? || desk.calls[v].step.Get?
    ensures CallOk(ProceedCall(desk, v, outcome), v, s + OwnPart(desk, Proceed(v, outcome), v))
  {
    hide BoundOnce, AnswersOk, RemovalsOk, NoRepeats, Builds, Stripped, LiveOk, Holders;
    HoldersAppend(desk.bound, Binding(desk.calls[v].key, v));
    assert CallsOk(desk.calls, Holders(desk.bound), desk.enqueued, desk.begun);
    assert v !in Holders(desk.bound);
    hide DeskOk;
    var part := OwnPart(desk, Proceed(v, outcome), v);
    assert s + part == part;
  }

  /** The later steps of a call that has its key. */
  lemma HolderKeepsCallOk(desk: Desk, v: TaskId, outcome: Outcome, s: seq<Own>)
    requires DeskOk(desk) && CallOk(desk, v, s) && v in desk.calls
    requires !desk.calls[v].step.SetNx? && !desk.calls[v].step.Get?
    ensures CallOk(ProceedCall(desk, v, outcome), v, s + OwnPart(desk, Proceed(v, outcome), v))
  {
    hide BoundOnce, AnswersOk, RemovalsOk, NoRepeats, Stripped, LiveOk, Holders, Builds;
    assert CallsOk(desk.calls, Holders(desk.bound), desk.enqueued, desk.begun);
    assert RequestsOk(desk.calls, desk.requests);
    assert v in Holders(desk.bound) && Builds(desk.requests, v);
    hide DeskOk, RequestsOk, CallsOk;
    assert OwnPart(desk, Proceed(v, outcome), v) == [Came(outcome)];
    match desk.calls[v].step
    case TouchSession =>
    case BuildTask =>
    case EnqueueTask => assert desk.calls[v].step == EnqueueTask;
    case Release =>
    case _ =>
  }

  lemma GiveUpKeepsCallOk(desk: Desk, v: TaskId, s: seq<Own>)
    requires DeskOk(desk) && CallOk(desk, v, s)
    ensures CallOk(EndCall(desk, v), v, s + OwnPart(desk, GiveUp(v), v))
  {
    hide BoundOnce, AnswersOk, RemovalsOk, NoRepeats, Builds, Stripped, LiveOk, Holders, DeskOk, ApplyDesk;
    var part := OwnPart(desk, GiveUp(v), v);
    assert s + [] == s;
  }

  lemma StepKeepsCallOk(desk: Desk, a: DeskAction, v: TaskId, s: seq<Own>)
    requires DeskOk(desk) && CallOk(desk, v, s)
    ensures CallOk(ApplyDesk(desk, a), v, s + OwnPart(desk, a, v))
  {
    assert s + [] == s;
    hide DeskOk, CallOk, OwnPart, ProceedCall, MakeInput;
    if (a.Proceed? || a.GiveUp?) && a.caller == v {
      if a.GiveUp? {
        GiveUpKeepsCallOk(desk, v, s);
      } else if v in desk.calls {
        if desk.calls[v].step.SetNx? || desk.calls[v].step.Get? {
          BindingKeepsCallOk(desk, v, a.outcome, s);
        } else {
          HolderKeepsCallOk(desk, v, a.outcome, s);
        }
      } else {
        NoPart(desk, a, v);
      }
    } else {
      OthersKeepCallOk(desk, a, v, s);
    }
  }

  lemma NoPart(desk: Desk, a: DeskAction, v: TaskId)
    requires v !in desk.calls
    ensures OwnPart(desk, a, v) == []
  {
  }

  lemma {:induction false} RunKeepsCallOk(trace: seq<DeskAction>, v: TaskId)
    ensures CallOk(RunDesk(EMPTY_DESK, trace), v, Since(trace, v))
    decreases |trace|
  {
    hide CallOk, ApplyDesk, DeskOk, OwnPart;
    if trace == [] {
      NobodyBound(v);
    } else {
      RunIsOk(trace[..|trace| - 1]);
      RunKeepsCallOk(trace[..|trace| - 1], v);
      StepKeepsCallOk(RunDesk(EMPTY_DESK, trace[..|trace| - 1]), trace[|trace| - 1], v, Since(trace[..|trace| - 1], v));
    }
  }

  lemma NobodyBound(v: TaskId)
    ensures CallOk(EMPTY_DESK, v, [])
  {
  }

  /** For every run and every binding: the bound id is enqueued if and only if its call heard that SET NX
      succeeded, its session was refreshed, and its enqueue transaction ran; nothing else matters, not even
      the lookup for the priority.  A call that has ended has ended in one of five ways. */
  lemma BoundIdIsEnqueued(trace: seq<DeskAction>, desk: Desk, life: nat)
    requires desk == RunDesk(EMPTY_DESK, trace) && life < |desk.bound|
    ensures var v := desk.bound[life].value;
            && (v in desk.enqueued <==> Sent(Since(trace, v)))
            && (v !in desk.calls ==> EndedLike(Since(trace, v)))
  {
    hide RunDesk, Since, Sent, EndedLike, StandsAt;
    var v := desk.bound[life].value;
    RunKeepsCallOk(trace, v);
    assert desk.bound[life] in desk.bound;
  }

  /** What a duplicate is told names an enqueued task if and only if the call that holds the key comes that far. */
  lemma DuplicateNamesEnqueuedTask(trace: seq<DeskAction>, desk: Desk, answer: Answer)
    requires desk == RunDesk(EMPTY_DESK, trace) && answer in desk.answers && !answer.acquired
    ensures answer.life < |desk.bound| && answer.value == desk.bound[answer.life].value
    ensures answer.value in desk.enqueued <==> Sent(Since(trace, answer.value))
  {
    hide RunDesk, Since, Sent;
    RunIsOk(trace);
    assert AnswersOk(desk.answers, desk.bound);
    var i :| 0 <= i < |desk.answers| && desk.answers[i] == answer;
    BoundIdIsEnqueued(trace, desk, answer.life);
  }

  /** In every run, a call that comes to build its task can build it: the command object has refused every
      request that the constructor of the task would refuse. */
  lemma BuildingIsNeverRefused(trace: seq<DeskAction>, desk: Desk, v: TaskId, now: string, priority: nat)
    requires desk == RunDesk(EMPTY_DESK, trace) && v in desk.calls
    ensures v in desk.requests && TaskFor(v, desk.requests[v], now, priority).Ok?
  {
    RunIsOk(trace);
    assert RequestsOk(desk.calls, desk.requests) && Builds(desk.requests, v);
    hide DeskOk, Strip;
  }

  // ---------------------------------------------------------------- what is left of the binding

  predicate IsLive(desk: Desk, life: nat) {
    life < |desk.bound| && desk.bound[life].key in desk.live && desk.live[desk.bound[life].key] == life
  }

  /** This step is the expiry of the binding. */
  predicate LapsesBy(before: Desk, a: DeskAction, life: nat) {
    a.Expire? && a.key in before.live && before.live[a.key] == life
  }

  /** The binding expired in this run. */
  predicate Lapsed(trace: seq<DeskAction>, life: nat)
    decreases |trace|
  {
    trace != [] &&
    (|| Lapsed(trace[..|trace| - 1], life)
     || LapsesBy(RunDesk(EMPTY_DESK, trace[..|trace| - 1]), trace[|trace| - 1], life))
  }

  /** A call releases the key that it bound. */
  predicate KeyOk(desk: Desk, life: nat)
    requires life < |desk.bound|
  {
    desk.bound[life].value in desk.calls ==> desk.calls[desk.bound[life].value].key == desk.bound[life].key
  }

  /** The binding is in place unless it expired or its own call's release ran. */
  ghost predicate BindingOk(desk: Desk, life: nat, lapsed: bool, s: seq<Own>) {
    if life < |desk.bound| then KeyOk(desk, life) && (IsLive(desk, life) <==> !lapsed && !ReleaseRan(s)) else !lapsed
  }

  lemma BoundGrows(desk: Desk, a: DeskAction)
    ensures desk.bound <= ApplyDesk(desk, a).bound
    ensures |ApplyDesk(desk, a).bound| <= |desk.bound| + 1
    ensures |ApplyDesk(desk, a).bound| > |desk.bound| ==>
              && a.Proceed? && a.caller in desk.calls && desk.calls[a.caller].step.SetNx?
              && ApplyDesk(desk, a).bound[|desk.bound|].value == a.caller
              && IsLive(ApplyDesk(desk, a), |desk.bound|)
  {
    hide MakeInput, Builds, Stripped;
  }

  /** This step is the release of the call that made the binding, and it runs. */
  predicate ReleasesBy(desk: Desk, a: DeskAction, v: TaskId) {
    a.Proceed? && a.caller == v && v in desk.calls && desk.calls[v].step == Release && Ran(a.outcome)
  }

  lemma ReleaseLive(desk: Desk, w: TaskId, life: nat)
    requires LiveOk(desk.live, desk.bound) && BoundOnce(desk.bound) && life < |desk.bound| && KeyOk(desk, life)
    requires w in desk.calls
    ensures IsLive(Unbind(desk, desk.calls[w].key, w), life) <==> IsLive(desk, life) && desk.bound[life].value != w
  {
    var key := desk.calls[w].key;
    if desk.Holder(key) == Some(w) {
      assert desk.bound[desk.live[key]].value == w;
    }
  }

  lemma BindLive(desk: Desk, key: RequestKey, w: TaskId, life: nat)
    requires life < |desk.bound|
    ensures IsLive(Bind(desk, key, w), life) <==> IsLive(desk, life)
  {
  }

  lemma SameLive(desk: Desk, after: Desk, life: nat)
    requires after.bound == desk.bound && after.live == desk.live
    ensures IsLive(after, life) <==> IsLive(desk, life)
  {
  }

  lemma ProceedLive(desk: Desk, w: TaskId, outcome: Outcome, life: nat)
    requires LiveOk(desk.live, desk.bound) && BoundOnce(desk.bound) && life < |desk.bound| && KeyOk(desk, life)
    requires w in desk.calls
    ensures IsLive(ProceedCall(desk, w, outcome), life) <==>
            IsLive(desk, life) && !(desk.calls[w].step == Release && Ran(outcome) && desk.bound[life].value == w)
  {
    hide Builds, Stripped, Bind, Unbind, LiveOk, BoundOnce, KeyOk, IsLive;
    var after := ProceedCall(desk, w, outcome);
    BindLive(desk, desk.calls[w].key, w, life);
    ReleaseLive(desk, w, life);
    match desk.calls[w].step
    case SetNx(_) => if Ran(outcome) && desk.calls[w].key !in desk.live { SameLive(Bind(desk, desk.calls[w].key, w), after, life); } else { SameLive(desk, after, life); }
    case Get(_) => SameLive(desk, after, life);
    case Release => if Ran(outcome) { SameLive(Unbind(desk, desk.calls[w].key, w), after, life); } else { SameLive(desk, after, life); }
    case _ => SameLive(desk, after, life);
  }

  /** Only expiry and the holder's release end a binding that is in place; nothing brings one back. */
  lemma LiveStep(desk: Desk, a: DeskAction, life: nat)
    requires DeskOk(desk) && life < |desk.bound| && KeyOk(desk, life)
    ensures IsLive(ApplyDesk(desk, a), life) <==>
            IsLive(desk, life) && !LapsesBy(desk, a, life) && !ReleasesBy(desk, a, desk.bound[life].value)
  {
    hide AnswersOk, RemovalsOk, NoRepeats, Builds, Stripped, MakeInput, Holders, RequestsOk, ProceedCall, KeyOk, CallsOk, IdsOk, BoundOnce;
    match a
    case Proceed(w, outcome) => if w in desk.calls { ProceedLive(desk, w, outcome, life); }
    case _ =>
  }

  lemma KeysStay(desk: Desk, a: DeskAction, v: TaskId)
    requires v in desk.begun
    ensures v in ApplyDesk(desk, a).calls ==> v in desk.calls && ApplyDesk(desk, a).calls[v].key == desk.calls[v].key
  {
    hide Builds, Stripped, MakeInput, ProceedCall;
    match a
    case Proceed(w, outcome) => if w in desk.calls { ProceedKeys(desk, w, outcome, v); }
    case _ =>
  }

  lemma ProceedKeys(desk: Desk, w: TaskId, outcome: Outcome, v: TaskId)
    requires w in desk.calls
    ensures var after := ProceedCall(desk, w, outcome);
            v in after.calls ==> v in desk.calls && after.calls[v].key == desk.calls[v].key
  {
    hide Builds, Stripped, Bind, Unbind, Ran;
    BindingKeepsCalls(desk, desk.calls[w].key, w);
    match desk.calls[w].step
    case SetNx(_) =>
    case Get(_) =>
    case _ =>
  }

  /** A release is the last of a call's own steps. */
  lemma ReleasePart(desk: Desk, a: DeskAction, v: TaskId, s: seq<Own>)
    requires DeskOk(desk) && CallOk(desk, v, s) && v in Holders(desk.bound)
    ensures ReleaseRan(s + OwnPart(desk, a, v)) <==> ReleaseRan(s) || ReleasesBy(desk, a, v)
    ensures ReleaseRan(s) ==> v !in desk.calls
  {
    hide BoundOnce, AnswersOk, RemovalsOk, NoRepeats, Stripped, LiveOk, Holders, Builds, ApplyDesk, MakeInput;
    assert CallsOk(desk.calls, Holders(desk.bound), desk.enqueued, desk.begun);
    hide DeskOk, CallsOk;
    assert s + [] == s;
    if v in desk.calls && (a.Proceed? || a.GiveUp?) && a.caller == v {
      var part := if a.Proceed? then Came(a.outcome) else Gone;
      assert OwnPart(desk, a, v) == [part];
      assert (s + [part])[|s|] == part && forall i | 0 <= i < |s| :: (s + [part])[i] == s[i];
    } else {
      assert OwnPart(desk, a, v) == [];
    }
  }

  lemma BoundIsBegun(desk: Desk, life: nat)
    requires DeskOk(desk) && life < |desk.bound|
    ensures desk.bound[life].value in Holders(desk.bound) && desk.bound[life].value in desk.begun
  {
    hide BoundOnce, AnswersOk, RemovalsOk, NoRepeats, Stripped, LiveOk, CallsOk, RequestsOk;
    assert desk.bound[life] in desk.bound;
  }

  lemma StepKeepsBindingOk(desk: Desk, a: DeskAction, after: Desk, life: nat, lapsed: bool, s: seq<Own>)
    requires after == ApplyDesk(desk, a) && desk.bound <= after.bound
    requires DeskOk(desk) && life < |desk.bound| && CallOk(desk, desk.bound[life].value, s) && BindingOk(desk, life, lapsed, s)
    ensures BindingOk(after, life, lapsed || LapsesBy(desk, a, life), s + OwnPart(desk, a, desk.bound[life].value))
  {
    hide DeskOk, CallOk, ApplyDesk, IsLive, ReleaseRan, OwnPart, LapsesBy, ReleasesBy, Holders;
    var v := desk.bound[life].value;
    BoundIsBegun(desk, life);
    BoundGrows(desk, a);
    KeysStay(desk, a, v);
    LiveStep(desk, a, life);
    ReleasePart(desk, a, v, s);
  }

  lemma NewBindingIsOk(desk: Desk, a: DeskAction, s: seq<Own>)
    requires DeskOk(desk) && |ApplyDesk(desk, a).bound| > |desk.bound|
    requires CallOk(desk, a.caller, s)
    ensures BindingOk(ApplyDesk(desk, a), |desk.bound|, LapsesBy(desk, a, |desk.bound|), s + OwnPart(desk, a, a.caller))
  {
    hide BoundOnce, AnswersOk, RemovalsOk, NoRepeats, Stripped, Builds, MakeInput, LiveOk, Holders;
    BoundGrows(desk, a);
    var v := a.caller;
    assert CallsOk(desk.calls, Holders(desk.bound), desk.enqueued, desk.begun);
    assert v !in Holders(desk.bound) && s == [];
    hide DeskOk, CallsOk, CallOk;
  }

  lemma {:induction false} RunKeepsBindingOk(trace: seq<DeskAction>, life: nat)
    ensures var desk := RunDesk(EMPTY_DESK, trace);
            BindingOk(desk, life, Lapsed(trace, life), if life < |desk.bound| then Since(trace, desk.bound[life].value) else [])
    decreases |trace|
  {
    hide ApplyDesk, DeskOk, CallOk, OwnPart, LapsesBy, BindingOk;
    if trace == [] {
      assert BindingOk(EMPTY_DESK, life, false, []) by { NothingBound(life); }
    } else {
      var front, a := trace[..|trace| - 1], trace[|trace| - 1];
      var desk := RunDesk(EMPTY_DESK, front);
      RunIsOk(front);
      RunKeepsBindingOk(front, life);
      BoundGrows(desk, a);
      if life < |desk.bound| {
        RunKeepsCallOk(front, desk.bound[life].value);
        StepKeepsBindingOk(desk, a, ApplyDesk(desk, a), life, Lapsed(front, life), Since(front, desk.bound[life].value));
      } else {
        UnboundDoesNotLapse(desk, a, life, Lapsed(front, life));
        if life < |ApplyDesk(desk, a).bound| {
          RunKeepsCallOk(front, a.caller);
          NewBindingIsOk(desk, a, Since(front, a.caller));
        }
      }
    }
  }

  lemma NothingBound(life: nat)
    ensures BindingOk(EMPTY_DESK, life, false, [])
  {
  }

  lemma UnboundDoesNotLapse(desk: Desk, a: DeskAction, life: nat, lapsed: bool)
    requires DeskOk(desk) && life >= |desk.bound| && BindingOk(desk, life, lapsed, [])
    ensures !lapsed && !LapsesBy(desk, a, life)
    ensures life >= |ApplyDesk(desk, a).bound| ==> BindingOk(ApplyDesk(desk, a), life, false, [])
  {
    assert LiveOk(desk.live, desk.bound);
    hide DeskOk, ApplyDesk;
  }

  /** For every run and every binding: it is in place unless it expired or its own call's release ran.  So of
      the endings of a call, a lost reply to SET NX, giving up at any point, an enqueued task and a release
      that did not run leave the key bound until it expires. */
  lemma BindingIsInPlace(trace: seq<DeskAction>, desk: Desk, life: nat)
    requires desk == RunDesk(EMPTY_DESK, trace) && life < |desk.bound|
    ensures var s := Since(trace, desk.bound[life].value);
            && (IsLive(desk, life) <==> !Lapsed(trace, life) && !ReleaseRan(s))
            && (desk.bound[life].value !in desk.calls ==> EndedLike(s))
            && (ReleaseRan(s) ==> WentWell(s, 0) && (Failed(s, 1) || Failed(s, 3)))
  {
    hide RunDesk, Since, IsLive, Lapsed, EndedLike, Sent;
    RunKeepsBindingOk(trace, life);
    BoundIdIsEnqueued(trace, desk, life);
  }

  // ---------------------------------------------------------------- a submission by itself

  /** These many successful steps of the call. */
  function Proceeds(caller: TaskId, k: nat): seq<DeskAction> {
    seq(k, _ => Proceed(caller, Succeeds))
  }

  lemma OneMoreProceed(desk: Desk, caller: TaskId, k: nat)
    ensures RunDesk(desk, Proceeds(caller, k + 1)) == ApplyDesk(RunDesk(desk, Proceeds(caller, k)), Proceed(caller, Succeeds))
  {
    hide ApplyDesk;
    assert Proceeds(caller, k + 1)[..k] == Proceeds(caller, k);
  }

  lemma FourProceeds(desk: Desk, caller: TaskId)
    ensures var two := ApplyDesk(ApplyDesk(desk, Proceed(caller, Succeeds)), Proceed(caller, Succeeds));
            && RunDesk(desk, Proceeds(caller, 2)) == two
            && RunDesk(desk, Proceeds(caller, 4)) == ApplyDesk(ApplyDesk(two, Proceed(caller, Succeeds)), Proceed(caller, Succeeds))
  {
    hide ApplyDesk;
    assert RunDesk(desk, Proceeds(caller, 0)) == desk;
    OneMoreProceed(desk, caller, 0);
    OneMoreProceed(desk, caller, 1);
    OneMoreProceed(desk, caller, 2);
    OneMoreProceed(desk, caller, 3);
  }

  lemma BegunBuilds(desk: Desk, caller: TaskId, key: RequestKey, raw: IntentInput)
    requires Proposable(desk, caller) && MakeInput(raw).Ok?
    ensures var begun := ApplyDesk(desk, Begin(caller, key, raw));
            && begun == BeginCall(desk, caller, key, MakeInput(raw).value)
            && Builds(begun.requests, caller)
  {
    AcceptedInputBuilds(caller, raw, "", 0);
    hide MakeInput, TaskFor, Stripped;
  }

  /** The desk after the call on a free key went through. */
  predicate Submitted(desk: Desk, after: Desk, caller: TaskId, key: RequestKey) {
    && after.enqueued == desk.enqueued + [caller]
    && after.bound == desk.bound + [Binding(key, caller)] && after.Holder(key) == Some(caller)
    && after.answers == desk.answers + [Answer(caller, |desk.bound|, caller, true)]
    && caller !in after.calls
  }

  lemma FreeKeySteps(begun: Desk, caller: TaskId, key: RequestKey)
    requires caller in begun.calls && begun.calls[caller] == Call(key, SetNx(0)) && key !in begun.live
    requires Builds(begun.requests, caller)
    ensures var two := ApplyDesk(ApplyDesk(begun, Proceed(caller, Succeeds)), Proceed(caller, Succeeds));
            Submitted(begun, ApplyDesk(ApplyDesk(two, Proceed(caller, Succeeds)), Proceed(caller, Succeeds)), caller, key)
  {
    hide Builds;
  }

  /**
   When nobody disturbs and every call succeeds, in any reachable state: a request whose key is free binds it and
   is enqueued under its own id, and one whose key is held is answered with the holder's id and enqueues nothing.
   */
  lemma UndisturbedSubmission(trace: seq<DeskAction>, desk: Desk, caller: TaskId, key: RequestKey, raw: IntentInput)
    requires desk == RunDesk(EMPTY_DESK, trace) && Proposable(desk, caller) && MakeInput(raw).Ok?
    ensures var begun := ApplyDesk(desk, Begin(caller, key, raw));
            match desk.Holder(key)
            case None => Submitted(desk, RunDesk(begun, Proceeds(caller, 4)), caller, key)
            case Some(holder) =>
              var after := RunDesk(begun, Proceeds(caller, 2));
              && after.answers == desk.answers + [Answer(caller, desk.live[key], holder, false)]
              && after.enqueued == desk.enqueued && after.bound == desk.bound && after.live == desk.live && caller !in after.calls
  {
    hide RunDesk, MakeInput, Proposable, Builds;
    RunIsOk(trace);
    assert LiveOk(desk.live, desk.bound);
    hide DeskOk;
    BegunBuilds(desk, caller, key, raw);
    var begun := BeginCall(desk, caller, key, MakeInput(raw).value);
    FourProceeds(begun, caller);
    if desk.Holder(key).None? {
      hide ApplyDesk;
      FreeKeySteps(begun, caller, key);
    }
  }
}
