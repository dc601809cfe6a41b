/** The notification service's reminder throttling: whether a user may be
    sent a notice (preference flags and the aggregation window), the send
    methods that record a notice only when the mail went out, and the
    routing of each user with pending sessions to an individual or an
    aggregated reminder.  Mail delivery is an oracle `delivers`; the mail
    templates and the pending-session query are outside the model. */
module Notifications {

  datatype NoticeKind = Reminder | DailySummary | Aggregated

  /** A `notification_preferences` row. */
  datatype Preference = Preference(emailNotifications: bool, dailySummary: bool,
                                   sessionReminders: bool, aggregationEnabled: bool)

  /** The row created for a user who has none: every flag on. */
  const DefaultPreference := Preference(true, true, true, true)

  /** A user with closed sessions waiting for a comment. */
  datatype UserInfo = UserInfo(userId: nat, username: string, email: string,
                               pendingSessions: seq<nat>, totalPending: int)

  /** A `sent_notifications` row: who, which kind, the sessions it listed,
      and when (integer seconds). */
  datatype SentNotification = SentNotification(userId: nat, kind: NoticeKind, sessionIds: seq<nat>, sentAt: int)

  /** The two tables the manager reads and writes. */
  datatype Ledger = Ledger(prefs: map<nat, Preference>, sent: seq<SentNotification>)

  datatype Config = Config(aggregationWindowHours: int, minSessionsForAggregation: int)

  const DefaultConfig := Config(24, 2)

  /** The earliest send time that still counts as recent. */
  function Cutoff(cfg: Config, now: int): int
  {
    now - cfg.aggregationWindowHours * 3600
  }

  /** Some notice of this kind went to the user at or after `cutoff`. */
  predicate SentSince(sent: seq<SentNotification>, userId: nat, kind: NoticeKind, cutoff: int)
  {
    exists i | 0 <= i < |sent| :: sent[i].userId == userId && sent[i].kind == kind && sent[i].sentAt >= cutoff
  }

  /** The checks of `should_send_reminder` once the preference row is known. */
  predicate Permits(p: Preference, kind: NoticeKind, sent: seq<SentNotification>, userId: nat, cutoff: int)
  {
    p.emailNotifications
    && !(kind == Reminder && !p.sessionReminders)
    && !(kind == DailySummary && !p.dailySummary)
    && !(p.aggregationEnabled && SentSince(sent, userId, kind, cutoff))
  }

  /** `should_send_reminder`: insert the default row for an unknown user,
      then decide. */
  function ShouldSend(led: Ledger, cfg: Config, userId: nat, kind: NoticeKind, now: int): (Ledger, bool)
  {
    var prefs := if userId in led.prefs then led.prefs else led.prefs[userId := DefaultPreference];
    (led.(prefs := prefs), Permits(prefs[userId], kind, led.sent, userId, Cutoff(cfg, now)))
  }

  /** A user without a preference row gets the default row, which lets every
      kind of notice through unless one of that kind was sent recently. */
  lemma DefaultRowInserted(led: Ledger, cfg: Config, userId: nat, kind: NoticeKind, now: int)
    requires userId !in led.prefs
    ensures var (l2, ok) := ShouldSend(led, cfg, userId, kind, now);
      l2.prefs == led.prefs[userId := DefaultPreference] && l2.sent == led.sent
      && (ok <==> !SentSince(led.sent, userId, kind, Cutoff(cfg, now)))
  {
  }

  /** A known user's row is left as it is. */
  lemma KnownRowKept(led: Ledger, cfg: Config, userId: nat, kind: NoticeKind, now: int)
    requires userId in led.prefs
    ensures ShouldSend(led, cfg, userId, kind, now).0 == led
  {
  }

  /** With e-mail notifications off, nothing is sent. */
  lemma EmailOffBlocksAll(led: Ledger, cfg: Config, userId: nat, kind: NoticeKind, now: int)
    requires userId in led.prefs && !led.prefs[userId].emailNotifications
    ensures !ShouldSend(led, cfg, userId, kind, now).1
  {
  }

  /** With e-mail on and nothing sent recently, a reminder depends on the
      reminder flag alone, a daily summary on the summary flag alone, and an
      aggregated reminder on neither. */
  lemma FlagsGate(led: Ledger, cfg: Config, userId: nat, kind: NoticeKind, now: int)
    requires userId in led.prefs && led.prefs[userId].emailNotifications
    requires !SentSince(led.sent, userId, kind, Cutoff(cfg, now))
    ensures var p := led.prefs[userId];
      var ok := ShouldSend(led, cfg, userId, kind, now).1;
      (kind == Reminder ==> (ok <==> p.sessionReminders))
      && (kind == DailySummary ==> (ok <==> p.dailySummary))
      && (kind == Aggregated ==> ok)
  {
  }

  /** With aggregation on, a notice of the same kind sent to the user within
      the window blocks the send; with aggregation off, the log is not
      consulted at all. */
  lemma WindowGate(led: Ledger, cfg: Config, userId: nat, kind: NoticeKind, now: int, i: nat)
    requires userId in led.prefs
    ensures led.prefs[userId].aggregationEnabled && i < |led.sent| && led.sent[i].userId == userId
            && led.sent[i].kind == kind && led.sent[i].sentAt >= Cutoff(cfg, now)
            ==> !ShouldSend(led, cfg, userId, kind, now).1
    ensures !led.prefs[userId].aggregationEnabled ==>
              ShouldSend(led, cfg, userId, kind, now).1 == ShouldSend(led.(sent := []), cfg, userId, kind, now).1
  {
  }

  /** One send: the decision, then the mail, then the log row, which is
      written only when the mail went out. */
  function Attempt(led: Ledger, cfg: Config, info: UserInfo, kind: NoticeKind, now: int,
                   delivers: (UserInfo, NoticeKind) -> bool): (Ledger, bool)
  {
    var (l1, ok) := ShouldSend(led, cfg, info.userId, kind, now);
    if !ok || !delivers(info, kind) then (l1, false)
    else (l1.(sent := l1.sent + [SentNotification(info.userId, kind, info.pendingSessions, now)]), true)
  }

  /** A send succeeds exactly when it is permitted and the mail goes out;
      then one row naming the user, the kind and the pending sessions is
      logged, and otherwise the log is unchanged. */
  lemma AttemptSpec(led: Ledger, cfg: Config, info: UserInfo, kind: NoticeKind, now: int,
                    delivers: (UserInfo, NoticeKind) -> bool)
    ensures var (l2, ok) := Attempt(led, cfg, info, kind, now, delivers);
      (ok <==> ShouldSend(led, cfg, info.userId, kind, now).1 && delivers(info, kind))
      && l2.prefs == ShouldSend(led, cfg, info.userId, kind, now).0.prefs
      && l2.sent == led.sent + (if ok then [SentNotification(info.userId, kind, info.pendingSessions, now)] else [])
  {
  }

  /** With aggregation on (as in the default row), the same notice is not
      sent to a user twice within the window. */
  lemma RepeatWithinWindowBlocked(led: Ledger, cfg: Config, info: UserInfo, kind: NoticeKind, now: int, later: int,
                                  delivers: (UserInfo, NoticeKind) -> bool)
    requires info.userId !in led.prefs || led.prefs[info.userId].aggregationEnabled
    requires now >= Cutoff(cfg, later)
    ensures var (l2, ok) := Attempt(led, cfg, info, kind, now, delivers);
      ok ==> Attempt(l2, cfg, info, kind, later, delivers) == (l2, false)
  {
    var (l2, ok) := Attempt(led, cfg, info, kind, now, delivers);
    if ok {
      assert l2.sent[|l2.sent| - 1].sentAt == now;
    }
  }

  // ---------------------------------------------------------------------
  // Sending to a list of users

  /** Which of the three send loops is running. */
  datatype Mode = Reminders | AggregatedOnly | Daily

  /** The kind of notice a user is sent in a given loop. */
  function KindOf(cfg: Config, info: UserInfo, mode: Mode): NoticeKind
  {
    match mode
    case Daily => DailySummary
    case AggregatedOnly => Aggregated
    case Reminders => if info.totalPending >= cfg.minSessionsForAggregation then Aggregated else Reminder
  }

  /** One user's turn in a loop.  The aggregated loop refuses users below the
      threshold without consulting anything; `process_reminders` sends those
      the individual reminder instead. */
  function Step(led: Ledger, cfg: Config, info: UserInfo, mode: Mode, now: int,
                delivers: (UserInfo, NoticeKind) -> bool): (Ledger, bool)
  {
    if mode == AggregatedOnly && info.totalPending < cfg.minSessionsForAggregation then (led, false)
    else Attempt(led, cfg, info, KindOf(cfg, info, mode), now, delivers)
  }

  /** The loop over `infos`, one result per user, in order. */
  function Run(led: Ledger, cfg: Config, infos: seq<UserInfo>, mode: Mode, now: int,
               delivers: (UserInfo, NoticeKind) -> bool): (Ledger, seq<bool>)
    decreases |infos|
  {
    if infos == [] then (led, [])
    else
      var (l1, rs) := Run(led, cfg, infos[..|infos| - 1], mode, now, delivers);
      var (l2, ok) := Step(l1, cfg, infos[|infos| - 1], mode, now, delivers);
      (l2, rs + [ok])
  }

  /** The log rows a loop writes: one per successful send, in order. */
  function Records(cfg: Config, infos: seq<UserInfo>, results: seq<bool>, mode: Mode, now: int): seq<SentNotification>
    requires |results| == |infos|
    decreases |infos|
  {
    if infos == [] then []
    else
      var n := |infos| - 1;
      Records(cfg, infos[..n], results[..n], mode, now)
      + (if results[n] then [SentNotification(infos[n].userId, KindOf(cfg, infos[n], mode), infos[n].pendingSessions, now)] else [])
  }

  /** A loop returns one result per user, logs exactly the successful sends,
      and in the aggregated loop succeeds only at or above the threshold. */
  lemma {:induction false} RunSpec(led: Ledger, cfg: Config, infos: seq<UserInfo>, mode: Mode, now: int,
                                   delivers: (UserInfo, NoticeKind) -> bool)
    ensures var (l2, rs) := Run(led, cfg, infos, mode, now, delivers);
      |rs| == |infos|
      && l2.sent == led.sent + Records(cfg, infos, rs, mode, now)
      && (mode == AggregatedOnly ==>
            forall k | 0 <= k < |rs| :: rs[k] ==> infos[k].totalPending >= cfg.minSessionsForAggregation)
    decreases |infos|
  {
    if infos != [] {
      var n := |infos| - 1;
      RunSpec(led, cfg, infos[..n], mode, now, delivers);
      var (l1, rs) := Run(led, cfg, infos[..n], mode, now, delivers);
      AttemptSpec(l1, cfg, infos[n], KindOf(cfg, infos[n], mode), now, delivers);
      var (l2, rs2) := Run(led, cfg, infos, mode, now, delivers);
      assert rs2[..n] == rs && infos[..n] == infos[..n];
    }
  }

  /** In `process_reminders` a user at or above the threshold is offered only
      the aggregated reminder and a user below it only the individual one. */
  lemma RoutedByThreshold(led: Ledger, cfg: Config, info: UserInfo, now: int,
                          delivers: (UserInfo, NoticeKind) -> bool)
    ensures info.totalPending >= cfg.minSessionsForAggregation ==>
      Step(led, cfg, info, Reminders, now, delivers) == Step(led, cfg, info, AggregatedOnly, now, delivers)
    ensures info.totalPending < cfg.minSessionsForAggregation ==>
      Step(led, cfg, info, Reminders, now, delivers) == Attempt(led, cfg, info, Reminder, now, delivers)
  {
  }

  // ---------------------------------------------------------------------
  // The manager

  class NotificationManager {
    var prefs: map<nat, Preference>
    var sent: seq<SentNotification>
    const config: Config

    function State(): Ledger
      reads this
    {
      Ledger(prefs, sent)
    }

    constructor(led: Ledger, config: Config)
      ensures State() == led && this.config == config
    {
      prefs := led.prefs;
      sent := led.sent;
      this.config := config;
    }

    method ShouldSendReminder(userId: nat, kind: NoticeKind, now: int) returns (ok: bool)
      modifies this`prefs
      ensures (State(), ok) == ShouldSend(old(State()), config, userId, kind, now)
    {
      if userId !in prefs {
        prefs := prefs[userId := DefaultPreference];
      }
      var p := prefs[userId];
      if !p.emailNotifications {
        return false;
      }
      if kind == Reminder && !p.sessionReminders {
        return false;
      }
      if kind == DailySummary && !p.dailySummary {
        return false;
      }
      if p.aggregationEnabled && SentSince(sent, userId, kind, Cutoff(config, now)) {
        return false;
      }
      return true;
    }

    /** The part the three send methods share: check, mail, log. */
    method Deliver(info: UserInfo, kind: NoticeKind, now: int, delivers: (UserInfo, NoticeKind) -> bool)
      returns (ok: bool)
      modifies this
      ensures (State(), ok) == Attempt(old(State()), config, info, kind, now, delivers)
    {
      ok := ShouldSendReminder(info.userId, kind, now);
      if !ok {
        return;
      }
      ok := delivers(info, kind);
      if ok {
        sent := sent + [SentNotification(info.userId, kind, info.pendingSessions, now)];
      }
    }

    method SendReminderNotification(info: UserInfo, now: int, delivers: (UserInfo, NoticeKind) -> bool)
      returns (ok: bool)
      modifies this
      ensures (State(), ok) == Attempt(old(State()), config, info, Reminder, now, delivers)
    {
      ok := Deliver(info, Reminder, now, delivers);
    }

    method SendAggregatedReminder(infos: seq<UserInfo>, now: int, delivers: (UserInfo, NoticeKind) -> bool)
      returns (results: seq<bool>)
      modifies this
      ensures (State(), results) == Run(old(State()), config, infos, AggregatedOnly, now, delivers)
    {
      results := [];
      var i := 0;
      while i < |infos|
        invariant 0 <= i <= |infos|
        invariant (State(), results) == Run(old(State()), config, infos[..i], AggregatedOnly, now, delivers)
      {
        var ok := false;
        if infos[i].totalPending >= config.minSessionsForAggregation {
          ok := Deliver(infos[i], Aggregated, now, delivers);
        }
        results := results + [ok];
        assert infos[..i + 1][..i] == infos[..i];
        i := i + 1;
      }
      assert infos[..i] == infos;
    }

    method SendDailySummary(infos: seq<UserInfo>, now: int, delivers: (UserInfo, NoticeKind) -> bool)
      returns (results: seq<bool>)
      modifies this
      ensures (State(), results) == Run(old(State()), config, infos, Daily, now, delivers)
    {
      results := [];
      var i := 0;
      while i < |infos|
        invariant 0 <= i <= |infos|
        invariant (State(), results) == Run(old(State()), config, infos[..i], Daily, now, delivers)
      {
        var ok := Deliver(infos[i], DailySummary, now, delivers);
        results := results + [ok];
        assert infos[..i + 1][..i] == infos[..i];
        i := i + 1;
      }
      assert infos[..i] == infos;
    }

    /** `process_reminders` over the users with pending sessions. */
    method ProcessReminders(infos: seq<UserInfo>, now: int, delivers: (UserInfo, NoticeKind) -> bool)
      returns (results: seq<(string, bool)>)
      modifies this
      ensures var (led, rs) := Run(old(State()), config, infos, Reminders, now, delivers);
        State() == led && |results| == |rs| == |infos|
        && forall k | 0 <= k < |results| :: results[k] == (infos[k].username, rs[k])
    {
      results := [];
      ghost var rs: seq<bool> := [];
      var i := 0;
      while i < |infos|
        invariant 0 <= i <= |infos|
        invariant (State(), rs) == Run(old(State()), config, infos[..i], Reminders, now, delivers)
        invariant Paired(infos, i, rs, results)
      {
        var info := infos[i];
        var ok := RouteReminder(info, now, delivers);
        results := results + [(info.username, ok)];
        rs := rs + [ok];
        assert infos[..i + 1][..i] == infos[..i];
        i := i + 1;
      }
      assert infos[..i] == infos;
    }

    /** One user's turn in `process_reminders`: the aggregated reminder at
        or above the threshold, the individual one below it. */
    method RouteReminder(info: UserInfo, now: int, delivers: (UserInfo, NoticeKind) -> bool)
      returns (ok: bool)
      modifies this
      ensures (State(), ok) == Step(old(State()), config, info, Reminders, now, delivers)
    {
      RoutedByThreshold(State(), config, info, now, delivers);
      if info.totalPending >= config.minSessionsForAggregation {
        ghost var before := State();
        var single := SendAggregatedReminder([info], now, delivers);
        assert [info][..0] == [];
        assert (State(), single[0]) == Step(before, config, info, AggregatedOnly, now, delivers);
        ok := single[0];
      } else {
        ok := SendReminderNotification(info, now, delivers);
      }
    }
  }

  /** The first `i` results pair each user's name with their verdict. */
  predicate Paired(infos: seq<UserInfo>, i: nat, rs: seq<bool>, results: seq<(string, bool)>)
  {
    i <= |infos| && |results| == |rs| == i
    && forall k | 0 <= k < i :: results[k] == (infos[k].username, rs[k])
  }
}
