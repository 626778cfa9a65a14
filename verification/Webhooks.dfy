/**
 * Webhook dispatch: endpoints, delivery rows and POSTs, with any number of dispatches of new and replayed events under
 * way at once, each delivery split into its claim and its answer.
 */
module Webhooks {
  import opened Arithmetic
  import opened Common

  datatype Endpoint = Endpoint(active: bool, events: set<string>, failures: nat)

  datatype Status = Pending | Success | Failed | Dead

  datatype Delivery = Delivery(status: Status, attempts: nat, nextRetry: Option<nat>)

  /** The tables, the POSTs sent and the answers recorded, in order, and every endpoint identifier ever used. */
  datatype Bus = Bus(endpoints: map<nat, Endpoint>, deliveries: map<(nat, string), Delivery>,
                     posts: seq<(nat, string)>, answers: seq<(nat, bool)>, used: set<nat>)

  datatype Config = Config(maxRetries: nat, retryDelay: nat)

  // ---- One delivery -------------------------------------------------------------------------

  /** INSERT ... ON CONFLICT DO NOTHING: the row exists once, and only the dispatch that inserted it sends the POST. */
  predicate Claims(bus: Bus, id: nat, event: string) {
    id in bus.endpoints && (id, event) !in bus.deliveries
  }

  function Claim(bus: Bus, id: nat, event: string): Bus {
    if Claims(bus, id, event) then
      bus.(deliveries := bus.deliveries[(id, event) := Delivery(Pending, 0, None)], posts := bus.posts + [(id, event)])
    else bus
  }

  /** The first attempt has failed: the delivery is dead at once, or due for a retry. */
  function ScheduleRetry(cfg: Config, d: Delivery, attempt: nat, now: nat): Delivery
    requires attempt >= 1
  {
    if attempt >= cfg.maxRetries then d.(status := Dead)
    else d.(nextRetry := Some(now + cfg.retryDelay * Pow2(attempt - 1)))
  }

  function Answered(cfg: Config, d: Delivery, ok: bool, now: nat): Delivery {
    var attempted := d.(attempts := d.attempts + 1);
    if ok then attempted.(status := Success) else ScheduleRetry(cfg, attempted.(status := Failed), 1, now)
  }

  /** The rows after an answer; those of an endpoint that was deleted meanwhile are gone. */
  function Answer(cfg: Config, bus: Bus, id: nat, event: string, ok: bool, now: nat): Bus {
    Bus(if id in bus.endpoints then
          bus.endpoints[id := bus.endpoints[id].(failures := if ok then 0 else bus.endpoints[id].failures + 1)]
        else bus.endpoints,
        if (id, event) in bus.deliveries then
          bus.deliveries[(id, event) := Answered(cfg, bus.deliveries[(id, event)], ok, now)]
        else bus.deliveries,
        bus.posts, bus.answers + [(id, ok)], bus.used)
  }

  // ---- Dispatches under way -------------------------------------------------------------------

  /** A dispatch: the endpoints it selected, how many it is done with, and whether it waits for an answer. */
  datatype Dispatch = Dispatch(event: string, order: seq<nat>, finished: nat, posting: bool)

  datatype System = System(bus: Bus, running: map<nat, Dispatch>)

  datatype Action =
    | Create(id: nat, active: bool, events: set<string>)
    | Update(id: nat, active: bool, events: set<string>)
    | Delete(id: nat)
    | Begin(pid: nat, kind: string, event: string, order: seq<nat>)
    | Deliver(pid: nat)
    | Receive(pid: nat, ok: bool, now: nat)

  predicate Subscribed(bus: Bus, id: nat, kind: string) {
    id in bus.endpoints && bus.endpoints[id].active && kind in bus.endpoints[id].events
  }

  /** The selected endpoints, each once, in an order the database chooses. */
  ghost predicate Selects(bus: Bus, kind: string, order: seq<nat>) {
    Distinct(order) && forall id :: id in order <==> Subscribed(bus, id, kind)
  }

  /** An action that cannot happen changes nothing. */
  ghost function Step(cfg: Config, sys: System, a: Action): System {
    var bus := sys.bus;
    match a
    case Create(id, active, events) =>
      if id in bus.used then sys
      else sys.(bus := bus.(endpoints := bus.endpoints[id := Endpoint(active, events, 0)], used := bus.used + {id}))
    case Update(id, active, events) =>
      if id !in bus.endpoints then sys
      else sys.(bus := bus.(endpoints := bus.endpoints[id := bus.endpoints[id].(active := active, events := events)]))
    case Delete(id) =>
      sys.(bus := bus.(endpoints := bus.endpoints - {id},
                       deliveries := map k | k in bus.deliveries && k.0 != id :: bus.deliveries[k]))
    case Begin(pid, kind, event, order) =>
      if pid in sys.running || !Selects(bus, kind, order) then sys
      else sys.(running := sys.running[pid := Dispatch(event, order, 0, false)])
    case Deliver(pid) =>
      if pid !in sys.running || sys.running[pid].posting
          || sys.running[pid].finished >= |sys.running[pid].order| then sys
      else
        var d := sys.running[pid];
        var id := d.order[d.finished];
        System(Claim(bus, id, d.event),
               sys.running[pid := if Claims(bus, id, d.event) then d.(posting := true)
                                  else d.(finished := d.finished + 1)])
    case Receive(pid, ok, now) =>
      if pid !in sys.running || !sys.running[pid].posting
          || sys.running[pid].finished >= |sys.running[pid].order| then sys
      else
        var d := sys.running[pid];
        System(Answer(cfg, bus, d.order[d.finished], d.event, ok, now),
               sys.running[pid := d.(posting := false, finished := d.finished + 1)])
  }

  ghost function Run(cfg: Config, sys: System, actions: seq<Action>): System {
    if actions == [] then sys else Step(cfg, Run(cfg, sys, actions[..|actions| - 1]), actions[|actions| - 1])
  }

  const EMPTY := System(Bus(map[], map[], [], [], {}), map[])

  // ---- The invariant ---------------------------------------------------------------------------

  /** Failed answers of an endpoint since its last success. */
  function Streak(answers: seq<(nat, bool)>, id: nat): nat {
    if answers == [] then 0
    else
      var last := answers[|answers| - 1];
      if last.0 != id then Streak(answers[..|answers| - 1], id)
      else if last.1 then 0
      else Streak(answers[..|answers| - 1], id) + 1
  }

  /** A delivery row for each POST to an endpoint that still exists; no POST twice. */
  ghost predicate PostedOnce(bus: Bus) {
    && (forall k :: k in bus.posts ==> k in bus.deliveries || k.0 !in bus.endpoints)
    && (forall k :: k in bus.deliveries ==> k in bus.posts && k.0 in bus.endpoints)
    && Distinct(bus.posts)
  }

  ghost predicate StreaksCounted(bus: Bus) {
    && (forall id :: id in bus.endpoints ==> bus.endpoints[id].failures == Streak(bus.answers, id))
    && (forall id :: id in bus.endpoints ==> id in bus.used)
    && (forall i :: 0 <= i < |bus.answers| ==> bus.answers[i].0 in bus.used)
    && (forall i :: 0 <= i < |bus.posts| ==> bus.posts[i].0 in bus.used)
  }

  /** What a dispatch is done with was posted, and so was what it waits for. */
  ghost predicate DispatchOk(bus: Bus, d: Dispatch) {
    && d.finished <= |d.order| && (d.posting ==> d.finished < |d.order|)
    && (forall i :: 0 <= i < |d.order| ==> d.order[i] in bus.used)
    && (forall i :: 0 <= i < d.finished && d.order[i] in bus.endpoints ==> (d.order[i], d.event) in bus.posts)
    && (d.posting ==> (d.order[d.finished], d.event) in bus.posts)
  }

  ghost predicate Invariant(sys: System) {
    && PostedOnce(sys.bus) && StreaksCounted(sys.bus)
    && forall pid :: pid in sys.running ==> DispatchOk(sys.bus, sys.running[pid])
  }

  lemma StepKeepsPostedOnce(cfg: Config, sys: System, a: Action)
    requires Invariant(sys)
    ensures PostedOnce(Step(cfg, sys, a).bus)
  {
    hide Streak, Answered;
  }

  lemma {:induction false} UnusedHasNoStreak(answers: seq<(nat, bool)>, id: nat)
    requires forall i :: 0 <= i < |answers| ==> answers[i].0 != id
    ensures Streak(answers, id) == 0
  {
    if answers != [] {
      UnusedHasNoStreak(answers[..|answers| - 1], id);
    }
  }

  lemma StepKeepsStreaks(cfg: Config, sys: System, a: Action)
    requires Invariant(sys)
    ensures StreaksCounted(Step(cfg, sys, a).bus)
  {
    if a.Create? && a.id !in sys.bus.used {
      UnusedHasNoStreak(sys.bus.answers, a.id);
    }
    hide Answered;
  }

  /** Endpoints only come with new identifiers, and no POST is undone. */
  ghost predicate Later(before: Bus, after: Bus) {
    && before.used <= after.used && (forall k :: k in before.posts ==> k in after.posts)
    && forall id :: id in after.endpoints && id in before.used ==> id in before.endpoints
  }

  lemma StepIsLater(cfg: Config, sys: System, a: Action)
    ensures Later(sys.bus, Step(cfg, sys, a).bus)
  {
    hide Answered;
  }

  lemma LaterKeepsDispatch(before: Bus, after: Bus, d: Dispatch)
    requires Later(before, after) && DispatchOk(before, d)
    ensures DispatchOk(after, d)
  {
  }

  /** The dispatch that an action begins or advances. */
  lemma OwnDispatchOk(cfg: Config, sys: System, a: Action, pid: nat)
    requires Invariant(sys)
    requires var after := Step(cfg, sys, a);
             pid in after.running && (pid !in sys.running || after.running[pid] != sys.running[pid])
    ensures var after := Step(cfg, sys, a); DispatchOk(after.bus, after.running[pid])
  {
    hide Answered, Streak;
    StepIsLater(cfg, sys, a);
    if a.Begin? {
      forall i | 0 <= i < |a.order|
        ensures a.order[i] in sys.bus.used
      {
        assert a.order[i] in a.order;
      }
    } else if a.Deliver? {
      ClaimPosts(sys.bus, sys.running[pid].order[sys.running[pid].finished], sys.running[pid].event);
    }
  }

  /** After a claim, whoever made it, the POST has been sent, unless the endpoint is gone. */
  lemma ClaimPosts(bus: Bus, id: nat, event: string)
    requires PostedOnce(bus)
    ensures id in bus.endpoints ==> (id, event) in Claim(bus, id, event).posts
    ensures Claims(bus, id, event) ==> (id, event) in Claim(bus, id, event).posts
  {
    if Claims(bus, id, event) {
      assert Claim(bus, id, event).posts[|bus.posts|] == (id, event);
    }
  }

  lemma StepKeepsInvariant(cfg: Config, sys: System, a: Action)
    requires Invariant(sys)
    ensures Invariant(Step(cfg, sys, a))
  {
    var after := Step(cfg, sys, a);
    StepKeepsPostedOnce(cfg, sys, a);
    StepKeepsStreaks(cfg, sys, a);
    StepIsLater(cfg, sys, a);
    forall pid | pid in after.running
      ensures DispatchOk(after.bus, after.running[pid])
    {
      if pid in sys.running && after.running[pid] == sys.running[pid] {
        LaterKeepsDispatch(sys.bus, after.bus, sys.running[pid]);
      } else {
        OwnDispatchOk(cfg, sys, a, pid);
      }
    }
    hide Step, PostedOnce, StreaksCounted, DispatchOk;
  }

  lemma {:induction false} RunsKeepInvariant(cfg: Config, sys: System, actions: seq<Action>)
    requires Invariant(sys)
    ensures Invariant(Run(cfg, sys, actions))
  {
    hide Step, Invariant;
    if actions != [] {
      RunsKeepInvariant(cfg, sys, actions[..|actions| - 1]);
      StepKeepsInvariant(cfg, Run(cfg, sys, actions[..|actions| - 1]), actions[|actions| - 1]);
    }
  }

  // ---- Main results ---------------------------------------------------------------------------------

  /** Over every run at most one POST per endpoint and event is sent, replays and failures included. */
  lemma AtMostOnePost(cfg: Config, actions: seq<Action>)
    ensures Distinct(Run(cfg, EMPTY, actions).bus.posts)
  {
    RunsKeepInvariant(cfg, EMPTY, actions);
  }

  /** The failure count of an endpoint is the number of failed answers since its last success. */
  lemma FailureCountIsStreak(cfg: Config, actions: seq<Action>, id: nat)
    ensures var bus := Run(cfg, EMPTY, actions).bus;
            id in bus.endpoints ==> bus.endpoints[id].failures == Streak(bus.answers, id)
  {
    RunsKeepInvariant(cfg, EMPTY, actions);
  }

  /** Once a dispatch is done, each endpoint it selected that still exists has had its POST. */
  lemma FinishedDispatchHasPosted(cfg: Config, actions: seq<Action>, pid: nat, id: nat)
    ensures var sys := Run(cfg, EMPTY, actions);
            pid in sys.running && sys.running[pid].finished == |sys.running[pid].order|
            && id in sys.running[pid].order && id in sys.bus.endpoints
            ==> (id, sys.running[pid].event) in sys.bus.posts
  {
    RunsKeepInvariant(cfg, EMPTY, actions);
  }

  /**
   * Some dispatch of `event` in the run selected endpoint `id`: it was active and subscribed when that dispatch began.
   */
  ghost predicate Selected(cfg: Config, sys: System, actions: seq<Action>, id: nat, event: string) {
    exists i :: 0 <= i < |actions| && SelectedAt(cfg, Run(cfg, sys, actions[..i]), actions[i], id, event)
  }

  ghost predicate SelectedAt(cfg: Config, sys: System, a: Action, id: nat, event: string) {
    a.Begin? && a.event == event && a.pid !in sys.running && Selects(sys.bus, a.kind, a.order) && id in a.order
  }

  /** What has been posted, and what the dispatches under way have selected, was selected. */
  ghost predicate AllSelected(cfg: Config, actions: seq<Action>, sys: System) {
    && (forall k :: k in sys.bus.posts ==> Selected(cfg, EMPTY, actions, k.0, k.1))
    && (forall pid, id :: pid in sys.running && id in sys.running[pid].order ==>
          Selected(cfg, EMPTY, actions, id, sys.running[pid].event))
  }

  lemma SelectedStays(cfg: Config, actions: seq<Action>, a: Action, id: nat, event: string)
    requires Selected(cfg, EMPTY, actions, id, event)
    ensures Selected(cfg, EMPTY, actions + [a], id, event)
  {
    var i :| 0 <= i < |actions| && SelectedAt(cfg, Run(cfg, EMPTY, actions[..i]), actions[i], id, event);
    assert (actions + [a])[..i] == actions[..i];
    hide SelectedAt, Run;
  }

  /** A step posts only what a dispatch under way selected, and only a beginning dispatch selects. */
  lemma StepSelects(cfg: Config, sys: System, a: Action)
    ensures var after := Step(cfg, sys, a);
            && (forall k :: k in after.bus.posts && k !in sys.bus.posts ==>
                  exists pid :: pid in sys.running && k.0 in sys.running[pid].order && k.1 == sys.running[pid].event)
            && (forall pid :: pid in after.running && pid in sys.running ==>
                  after.running[pid].order == sys.running[pid].order
                      && after.running[pid].event == sys.running[pid].event)
            && (forall pid, id :: pid in after.running && pid !in sys.running && id in after.running[pid].order ==>
                  SelectedAt(cfg, sys, a, id, after.running[pid].event))
  {
    hide Answered, Selects;
  }

  /** Only endpoints that were active and subscribed when some dispatch of the event began are ever posted to. */
  lemma {:induction false} PostsAreSelected(cfg: Config, actions: seq<Action>)
    ensures AllSelected(cfg, actions, Run(cfg, EMPTY, actions))
  {
    if actions != [] {
      var n := |actions| - 1;
      var first, a := actions[..n], actions[n];
      var sys, after := Run(cfg, EMPTY, first), Run(cfg, EMPTY, actions);
      PostsAreSelected(cfg, first);
      StepSelects(cfg, sys, a);
      assert actions == first + [a];
      hide Run, Step, Selected, SelectedAt;
      forall k | k in after.bus.posts
        ensures Selected(cfg, EMPTY, actions, k.0, k.1)
      {
        SelectedStaysOrNot(cfg, first, a, k.0, k.1);
      }
      forall pid, id | pid in after.running && id in after.running[pid].order
        ensures Selected(cfg, EMPTY, actions, id, after.running[pid].event)
      {
        if pid in sys.running {
          SelectedStays(cfg, first, a, id, sys.running[pid].event);
        } else {
          SelectedNow(cfg, first, a, id, after.running[pid].event);
        }
      }
    }
  }

  lemma SelectedStaysOrNot(cfg: Config, actions: seq<Action>, a: Action, id: nat, event: string)
    ensures Selected(cfg, EMPTY, actions, id, event) ==> Selected(cfg, EMPTY, actions + [a], id, event)
  {
    if Selected(cfg, EMPTY, actions, id, event) {
      SelectedStays(cfg, actions, a, id, event);
    }
  }

  lemma SelectedNow(cfg: Config, actions: seq<Action>, a: Action, id: nat, event: string)
    requires SelectedAt(cfg, Run(cfg, EMPTY, actions), a, id, event)
    ensures Selected(cfg, EMPTY, actions + [a], id, event)
  {
    assert (actions + [a])[..|actions|] == actions && (actions + [a])[|actions|] == a;
    hide SelectedAt, Run;
  }

  // ---- Delivery rows ------------------------------------------------------------------------------------

  /** A row is attempted once at most; a retry is noted exactly for a failure that may be retried. */
  ghost predicate RowOk(cfg: Config, d: Delivery) {
    && d.attempts == (if d.status.Pending? then 0 else 1)
    && (d.nextRetry.Some? <==> d.status.Failed?)
    && (d.status.Failed? ==> cfg.maxRetries > 1)
    && (d.status.Dead? ==> cfg.maxRetries <= 1)
  }

  predicate Waits(d: Dispatch) {
    d.posting && d.finished < |d.order|
  }

  function Awaited(d: Dispatch): (nat, string)
    requires Waits(d)
  {
    (d.order[d.finished], d.event)
  }

  /** Two dispatches never wait for the same delivery, and the row one waits for is still pending. */
  ghost predicate RowsOk(cfg: Config, sys: System) {
    && (forall k :: k in sys.bus.deliveries ==> RowOk(cfg, sys.bus.deliveries[k]))
    && (forall pid | pid in sys.running && Waits(sys.running[pid]) ::
          Awaited(sys.running[pid]) in sys.bus.deliveries ==>
            sys.bus.deliveries[Awaited(sys.running[pid])].status.Pending?)
    && (forall p, q | p in sys.running && q in sys.running && p != q ::
          Waits(sys.running[p]) && Waits(sys.running[q]) ==> Awaited(sys.running[p]) != Awaited(sys.running[q]))
  }

  lemma AnswerKeepsRowOk(cfg: Config, d: Delivery, ok: bool, now: nat)
    requires RowOk(cfg, d) && d.status.Pending?
    ensures RowOk(cfg, Answered(cfg, d, ok, now))
  {
  }

  lemma StepKeepsRows(cfg: Config, sys: System, a: Action)
    requires Invariant(sys) && RowsOk(cfg, sys)
    ensures RowsOk(cfg, Step(cfg, sys, a))
  {
    hide Streak, StreaksCounted, Selects, Answered, RowOk, DispatchOk;
    if a.Receive? {
      ReceiveKeepsRows(cfg, sys, a);
    } else if a.Deliver? {
      DeliverKeepsRows(cfg, sys, a);
    }
  }

  lemma ReceiveKeepsRows(cfg: Config, sys: System, a: Action)
    requires a.Receive? && RowsOk(cfg, sys)
    ensures RowsOk(cfg, Step(cfg, sys, a))
  {
    hide Answered, RowOk;
    if a.pid in sys.running && Waits(sys.running[a.pid]) {
      var k := Awaited(sys.running[a.pid]);
      if k in sys.bus.deliveries {
        AnswerKeepsRowOk(cfg, sys.bus.deliveries[k], a.ok, a.now);
      }
    }
  }

  lemma DeliverKeepsRows(cfg: Config, sys: System, a: Action)
    requires a.Deliver? && Invariant(sys) && RowsOk(cfg, sys)
    ensures RowsOk(cfg, Step(cfg, sys, a))
  {
    hide StreaksCounted, RowOk;
    NewRowOk(cfg);
    assert forall p :: p in sys.running && Waits(sys.running[p]) ==> Awaited(sys.running[p]) in sys.bus.posts;
    hide DispatchOk;
  }

  lemma NewRowOk(cfg: Config)
    ensures RowOk(cfg, Delivery(Pending, 0, None))
  {
  }

  /**
   * Over every run a delivery is attempted at most once. A failure notes when to retry, unless it is dead at once, but
   * the noted retry is never made: the row stands in the way of every later dispatch of the event.
   */
  lemma {:induction false} DeliveriesAreAttemptedOnce(cfg: Config, actions: seq<Action>)
    ensures RowsOk(cfg, Run(cfg, EMPTY, actions))
  {
    hide Step, RowsOk, Invariant;
    if actions == [] {
      assert RowsOk(cfg, EMPTY) by { NothingIsOk(cfg); }
    } else {
      DeliveriesAreAttemptedOnce(cfg, actions[..|actions| - 1]);
      assert Invariant(EMPTY) by { NothingIsOk(cfg); }
      RunsKeepInvariant(cfg, EMPTY, actions[..|actions| - 1]);
      StepKeepsRows(cfg, Run(cfg, EMPTY, actions[..|actions| - 1]), actions[|actions| - 1]);
    }
  }

  lemma NothingIsOk(cfg: Config)
    ensures RowsOk(cfg, EMPTY) && Invariant(EMPTY)
  {
  }

  // ---- The dispatcher as the service runs it ---------------------------------------------------------------

  /** One dispatch on its own: each selected endpoint claimed and answered in turn. */
  function DispatchAll(cfg: Config, bus: Bus, order: seq<nat>, event: string, ok: nat -> bool, now: nat): Bus {
    if order == [] then bus
    else
      var before := DispatchAll(cfg, bus, order[..|order| - 1], event, ok, now);
      var id := order[|order| - 1];
      if Claims(before, id, event) then Answer(cfg, Claim(before, id, event), id, event, ok(id), now) else before
  }

  /** The actions of one dispatch that nothing interrupts. */
  function Alone(pid: nat, order: seq<nat>, ok: nat -> bool, now: nat): seq<Action> {
    if order == [] then []
    else
      Alone(pid, order[..|order| - 1], ok, now) + [Deliver(pid)] + [Receive(pid, ok(order[|order| - 1]), now)]
  }

  lemma RunAppend(cfg: Config, sys: System, actions: seq<Action>, a: Action)
    ensures Run(cfg, sys, actions + [a]) == Step(cfg, Run(cfg, sys, actions), a)
  {
    assert (actions + [a])[..|actions|] == actions;
    hide Step;
  }

  lemma DeliverAndReceive(cfg: Config, sys: System, pid: nat, ok: bool, now: nat)
    requires pid in sys.running && !sys.running[pid].posting && sys.running[pid].finished < |sys.running[pid].order|
    ensures var d := sys.running[pid];
            var id := d.order[d.finished];
            Step(cfg, Step(cfg, sys, Deliver(pid)), Receive(pid, ok, now))
            == System(if Claims(sys.bus, id, d.event)
                      then Answer(cfg, Claim(sys.bus, id, d.event), id, d.event, ok, now)
                      else sys.bus,
                      sys.running[pid := d.(finished := d.finished + 1)])
  {
    hide Answer;
  }

  /** A dispatch that runs alone is one of the runs above. */
  lemma {:induction false} AloneIsARun(cfg: Config, sys: System, pid: nat, order: seq<nat>, n: nat, ok: nat -> bool,
                                       now: nat)
    requires n <= |order| && pid in sys.running && sys.running[pid].order == order
    requires sys.running[pid].finished == 0 && !sys.running[pid].posting
    ensures Run(cfg, sys, Alone(pid, order[..n], ok, now))
            == System(DispatchAll(cfg, sys.bus, order[..n], sys.running[pid].event, ok, now),
                      sys.running[pid := sys.running[pid].(finished := n)])
  {
    if n > 0 {
      AloneIsARun(cfg, sys, pid, order, n - 1, ok, now);
      assert order[..n][..n - 1] == order[..n - 1];
      var first := Alone(pid, order[..n - 1], ok, now);
      RunAppend(cfg, sys, first, Deliver(pid));
      RunAppend(cfg, sys, first + [Deliver(pid)], Receive(pid, ok(order[n - 1]), now));
      var before := Run(cfg, sys, first);
      DeliverAndReceive(cfg, before, pid, ok(order[n - 1]), now);
      hide Run, Step, Answer, Claim;
      assert before.running[pid := before.running[pid].(finished := n)]
          == sys.running[pid := sys.running[pid].(finished := n)];
    }
  }

  class Dispatcher {
    const cfg: Config
    var endpoints: map<nat, Endpoint>
    var deliveries: map<(nat, string), Delivery>
    var posts: seq<(nat, string)>
    var answers: seq<(nat, bool)>
    var used: set<nat>

    function View(): Bus
      reads this
    {
      Bus(endpoints, deliveries, posts, answers, used)
    }

    constructor (cfg: Config)
      ensures View() == EMPTY.bus && this.cfg == cfg
    {
      this.cfg := cfg;
      endpoints, deliveries, posts, answers, used := map[], map[], [], [], {};
    }

    /** Every selected endpoint in turn; `ok` says how the one it posts to answers. */
    method DispatchEvent(event: string, order: seq<nat>, ok: nat -> bool, now: nat)
      modifies this
      ensures View() == DispatchAll(cfg, old(View()), order, event, ok, now)
    {
      for i := 0 to |order|
        invariant View() == DispatchAll(cfg, old(View()), order[..i], event, ok, now)
      {
        hide Answered;
        assert order[..i + 1][..i] == order[..i];
        var id := order[i];
        if id in endpoints && (id, event) !in deliveries {
          deliveries := deliveries[(id, event) := Delivery(Pending, 0, None)];
          posts := posts + [(id, event)];
          Record(id, event, ok(id), now);
        }
      }
      assert order[..|order|] == order;
    }

    /** The updates after an answer: the delivery row, then the endpoint row, then the retry. */
    method Record(id: nat, event: string, ok: bool, now: nat)
      requires id in endpoints && (id, event) in deliveries
      modifies this`deliveries, this`endpoints, this`answers
      ensures View() == Answer(cfg, old(View()), id, event, ok, now)
    {
      var d := deliveries[(id, event)];
      d := d.(status := if ok then Success else Failed, attempts := d.attempts + 1);
      endpoints := endpoints[id := endpoints[id].(failures := if ok then 0 else endpoints[id].failures + 1)];
      answers := answers + [(id, ok)];
      if !ok {
        d := ScheduleRetry(cfg, d, 1, now);
      }
      deliveries := deliveries[(id, event) := d];
    }
  }
}

/** Signatures of incoming webhooks, and the payload that is sent. */
module WebhookPayload {
  import opened Common

  /** UTF-16 code units. */
  type Text = seq<bv16>

  lemma XorIsZeroIffEqual(a: bv16, b: bv16)
    ensures a ^ b == 0 <==> a == b
  {
  }

  lemma OrIsZeroIffBoth(a: bv16, b: bv16)
    ensures a | b == 0 <==> a == 0 && b == 0
  {
  }

  /** Accepts exactly the expected signature, looking at every code unit. */
  method VerifySignature(expected: Text, signature: Text) returns (ok: bool)
    ensures ok <==> signature == expected
  {
    if |expected| != |signature| {
      return false;
    }
    var result: bv16 := 0;
    for i := 0 to |expected|
      invariant result == 0 <==> forall k :: 0 <= k < i ==> expected[k] == signature[k]
    {
      XorIsZeroIffEqual(expected[i], signature[i]);
      OrIsZeroIffBoth(result, expected[i] ^ signature[i]);
      result := result | (expected[i] ^ signature[i]);
    }
    return result == 0;
  }

  const BLOCKED: set<string> := {
    "password", "passwordHash", "password_hash", "refreshToken", "refresh_token", "accessToken", "access_token",
    "mfaSecret", "mfa_secret", "recoveryCodes", "recovery_codes", "apiKey", "api_key", "secret", "clientSecret",
    "client_secret"
  }

  /** The entries of an object whose keys are distinct; exactly the blocked ones are left out, at the top level only. */
  method SanitizePayload<V>(entries: seq<(string, V)>) returns (sanitized: map<string, V>)
    requires forall i, j :: 0 <= i < j < |entries| ==> entries[i].0 != entries[j].0
    ensures forall key :: key in sanitized <==> key !in BLOCKED && exists i :: 0 <= i < |entries| && entries[i].0 == key
    ensures forall i :: 0 <= i < |entries| && entries[i].0 !in BLOCKED ==> sanitized[entries[i].0] == entries[i].1
  {
    hide BLOCKED;
    sanitized := map[];
    for i := 0 to |entries|
      invariant forall key :: key in sanitized <==> key !in BLOCKED && exists k :: 0 <= k < i && entries[k].0 == key
      invariant forall k :: 0 <= k < i && entries[k].0 !in BLOCKED ==> sanitized[entries[k].0] == entries[k].1
    {
      if entries[i].0 !in BLOCKED {
        sanitized := sanitized[entries[i].0 := entries[i].1];
      }
    }
  }
}
