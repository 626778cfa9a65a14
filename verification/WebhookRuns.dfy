/** Delivery rows, endpoint settings and answers after any interleaving, told from the actions one by one. */
module WebhookRuns {
  import opened Arithmetic
  import opened Common
  import opened Webhooks

  /** The dispatch is at the delivery, waiting for its answer or not. */
  predicate At(sys: System, pid: nat, posting: bool, k: (nat, string)) {
    && pid in sys.running && sys.running[pid].posting == posting
    && sys.running[pid].finished < |sys.running[pid].order|
    && k == (sys.running[pid].order[sys.running[pid].finished], sys.running[pid].event)
  }

  /**
   * A delivery row after a run: pending once claimed; after its answer a success, or a failure that is dead if at most
   * one attempt is allowed and notes a retry one delay later otherwise; gone with its endpoint.
   */
  ghost function RowAfter(cfg: Config, actions: seq<Action>, k: (nat, string)): Option<Delivery> {
    if actions == [] then None
    else
      var n := |actions| - 1;
      var sys, before := Run(cfg, EMPTY, actions[..n]), RowAfter(cfg, actions[..n], k);
      match actions[n]
      case Deliver(pid) =>
        if before.None? && At(sys, pid, false, k) && k.0 in sys.bus.endpoints then Some(Delivery(Pending, 0, None))
        else before
      case Receive(pid, ok, now) =>
        if before.None? || !At(sys, pid, true, k) then before
        else if ok then Some(Delivery(Success, 1, None))
        else if cfg.maxRetries <= 1 then Some(Delivery(Dead, 1, None))
        else Some(Delivery(Failed, 1, Some(now + cfg.retryDelay)))
      case Delete(id) => if id == k.0 then None else before
      case _ => before
  }

  lemma {:induction false} RowsAre(cfg: Config, actions: seq<Action>, k: (nat, string))
    ensures var deliveries := Run(cfg, EMPTY, actions).bus.deliveries;
            && (k in deliveries <==> RowAfter(cfg, actions, k).Some?)
            && (k in deliveries ==> RowAfter(cfg, actions, k) == Some(deliveries[k]))
  {
    if actions != [] {
      var n := |actions| - 1;
      RowsAre(cfg, actions[..n], k);
      DeliveriesAreAttemptedOnce(cfg, actions[..n]);
      var sys := Run(cfg, EMPTY, actions[..n]);
      hide Run, Selects;
      if actions[n].Receive? {
        ReceivedRow(cfg, sys, actions[n], k);
      }
      hide RowsOk, Answered;
    }
  }

  lemma ReceivedRow(cfg: Config, sys: System, a: Action, k: (nat, string))
    requires a.Receive? && RowsOk(cfg, sys)
    ensures var after := Step(cfg, sys, a).bus.deliveries;
            && (k in after <==> k in sys.bus.deliveries)
            && (k in after ==>
                  after[k] == if !At(sys, a.pid, true, k) then sys.bus.deliveries[k]
                              else if a.ok then Delivery(Success, 1, None)
                              else if cfg.maxRetries <= 1 then Delivery(Dead, 1, None)
                              else Delivery(Failed, 1, Some(a.now + cfg.retryDelay)))
  {
    if k in sys.bus.deliveries && At(sys, a.pid, true, k) {
      assert Waits(sys.running[a.pid]) && Awaited(sys.running[a.pid]) == k;
      assert RowOk(cfg, sys.bus.deliveries[k]) && sys.bus.deliveries[k].status.Pending?;
      assert Pow2(0) == 1;
    }
    hide RowsOk;
  }

  // ---- Endpoints -----------------------------------------------------------------------------------

  /** The settings of an endpoint after a run: those of its creation or last update. */
  ghost function SettingsAfter(cfg: Config, actions: seq<Action>, id: nat): Option<(bool, set<string>)> {
    if actions == [] then None
    else
      var n := |actions| - 1;
      var before := SettingsAfter(cfg, actions[..n], id);
      match actions[n]
      case Create(new_, active, events) =>
        if new_ == id && id !in Run(cfg, EMPTY, actions[..n]).bus.used then Some((active, events)) else before
      case Update(who, active, events) => if who == id && before.Some? then Some((active, events)) else before
      case Delete(who) => if who == id then None else before
      case _ => before
  }

  lemma {:induction false} SettingsAre(cfg: Config, actions: seq<Action>, id: nat)
    ensures var endpoints := Run(cfg, EMPTY, actions).bus.endpoints;
            && (id in endpoints <==> SettingsAfter(cfg, actions, id).Some?)
            && (id in endpoints ==>
                SettingsAfter(cfg, actions, id) == Some((endpoints[id].active, endpoints[id].events)))
  {
    if actions != [] {
      SettingsAre(cfg, actions[..|actions| - 1], id);
      hide Answered, Selects;
    }
  }

  /**
   * Every POST goes to an endpoint whose settings, when some dispatch of its event began, were active and subscribed.
   */
  lemma PostsGoToSubscribers(cfg: Config, actions: seq<Action>, id: nat, event: string) returns (i: nat)
    requires (id, event) in Run(cfg, EMPTY, actions).bus.posts
    ensures i < |actions| && actions[i].Begin? && actions[i].event == event && id in actions[i].order
    ensures var settings := SettingsAfter(cfg, actions[..i], id);
            settings.Some? && settings.value.0 && actions[i].kind in settings.value.1
  {
    PostsAreSelected(cfg, actions);
    assert Selected(cfg, EMPTY, actions, id, event);
    i :| 0 <= i < |actions| && SelectedAt(cfg, Run(cfg, EMPTY, actions[..i]), actions[i], id, event);
    SettingsAre(cfg, actions[..i], id);
    hide Run, SettingsAfter;
  }

  /** A dispatch that begins selects every endpoint that is active and subscribed, and each of them once. */
  lemma DispatchesSelectAll(cfg: Config, actions: seq<Action>, pid: nat, kind: string, event: string, order: seq<nat>,
                            id: nat)
    requires var sys := Run(cfg, EMPTY, actions);
             pid !in sys.running && pid in Step(cfg, sys, Begin(pid, kind, event, order)).running
    ensures Distinct(order)
    ensures var settings := SettingsAfter(cfg, actions, id);
            id in order <==> settings.Some? && settings.value.0 && kind in settings.value.1
  {
    SettingsAre(cfg, actions, id);
    hide Run, SettingsAfter;
  }

  // ---- Answers ----------------------------------------------------------------------------------------

  /** The answers after a run, in order: one for each POST that was waited for. */
  ghost function AnswersAfter(cfg: Config, actions: seq<Action>): seq<(nat, bool)> {
    if actions == [] then []
    else
      var n := |actions| - 1;
      var sys, before := Run(cfg, EMPTY, actions[..n]), AnswersAfter(cfg, actions[..n]);
      var a := actions[n];
      if a.Receive? && a.pid in sys.running && Waits(sys.running[a.pid]) then
        before + [(sys.running[a.pid].order[sys.running[a.pid].finished], a.ok)]
      else before
  }

  /** The failure count of an endpoint: its failed answers since its last successful one. */
  lemma {:induction false} FailuresAre(cfg: Config, actions: seq<Action>, id: nat)
    ensures var bus := Run(cfg, EMPTY, actions).bus;
            && bus.answers == AnswersAfter(cfg, actions)
            && (id in bus.endpoints ==> bus.endpoints[id].failures == Streak(AnswersAfter(cfg, actions), id))
  {
    AnswersAre(cfg, actions);
    FailureCountIsStreak(cfg, actions, id);
    hide Run, AnswersAfter;
  }

  lemma {:induction false} AnswersAre(cfg: Config, actions: seq<Action>)
    ensures Run(cfg, EMPTY, actions).bus.answers == AnswersAfter(cfg, actions)
  {
    if actions != [] {
      AnswersAre(cfg, actions[..|actions| - 1]);
      hide Answered, Selects;
    }
  }
}
