/** What every run of the notification service guarantees about bindings, codes, sends and their rate. */
module NotifySafety {
  import opened Wrappers
  import opened Text
  import opened RateLimit
  import opened NotifyModel

  // ---- the invariant ----

  /** The channel row says what the history says. */
  predicate RowMatches(c: Channel, log: seq<Record>, u: int) {
    c.code == OpenCode(log, u) && c.target == LatestChat(log, u)
    && (c.status == Bound <==> c.target != "") && TrimSpace(c.target) == c.target
    && (c.code.Some? ==> c.status == Pending || c.status == Bound)
  }

  ghost predicate Linked(s: State) {
    s.channels.Keys <= s.users.Keys && forall u :: RowMatches(ChannelOf(s, u), s.log, u)
  }

  function Holders(s: State, hash: int): set<int> {
    set u | u in s.channels && s.channels[u].code.Some? && s.channels[u].code.value.hash == hash
  }

  /** Binds made with a hash, plus rows that still hold it, never exceed its issues. */
  ghost predicate Budgeted(s: State) {
    forall h :: Binds(s.log, h) + |Holders(s, h)| <= Issues(s.log, h)
  }

  /** A bind redeems the user's open, unexpired code; a send goes to the latest bound chat, and a custom one
      directly follows its admission. */
  predicate RecordOk(log: seq<Record>, i: nat)
    requires i < |log|
  {
    match log[i]
    case BoundBy(u, hash, chat, at) =>
      OpenCode(log[..i], u).Some? && OpenCode(log[..i], u).value.hash == hash
      && at < OpenCode(log[..i], u).value.expiresAt
    case Sent(u, chat, category, at) =>
      chat != "" && chat == LatestChat(log[..i], u)
      && (category == "custom" ==> i > 0 && log[i - 1].Admitted? && log[i - 1].user == u && log[i - 1].at == at)
    case _ => true
  }

  ghost predicate HistoryOk(log: seq<Record>) {
    forall i :: 0 <= i < |log| ==> RecordOk(log, i)
  }

  /** In any window, no more custom sends than admissions. */
  ghost predicate SendsAdmitted(log: seq<Record>) {
    forall u, c :: |After(CustomSends(log, u), c)| <= |After(AdmittedTimes(log, u), c)|
  }

  ghost predicate Inv(s: State) {
    Linked(s) && Budgeted(s) && HistoryOk(s.log) && SendsAdmitted(s.log)
  }

  // ---- appending to the history ----

  lemma Pushed(log: seq<Record>, r: Record, u: int, h: int)
    ensures OpenCode(log + [r], u) == (if r.user == u && r.Issued? then Some(r.code)
                                       else if r.user == u && (r.BoundBy? || r.UnboundBy?) then None
                                       else OpenCode(log, u))
    ensures LatestChat(log + [r], u) == (if r.user == u && r.BoundBy? then r.chat
                                         else if r.user == u && r.UnboundBy? then "" else LatestChat(log, u))
    ensures Issues(log + [r], h) == Issues(log, h) + (if r.Issued? && r.code.hash == h then 1 else 0)
    ensures Binds(log + [r], h) == Binds(log, h) + (if r.BoundBy? && r.hash == h then 1 else 0)
    ensures AdmittedTimes(log + [r], u) == AdmittedTimes(log, u) + (if r.Admitted? && r.user == u then [r.at] else [])
    ensures CustomSends(log + [r], u) ==
            CustomSends(log, u) + (if r.Sent? && r.user == u && r.category == "custom" then [r.at] else [])
  {
    assert (log + [r])[..|log|] == log;
  }

  lemma HistoryPushed(log: seq<Record>, r: Record)
    requires HistoryOk(log) && RecordOk(log + [r], |log|)
    ensures HistoryOk(log + [r])
  {
    hide OpenCode, LatestChat;
    forall i | 0 <= i < |log + [r]|
      ensures RecordOk(log + [r], i)
    {
      if i < |log| {
        assert (log + [r])[..i] == log[..i] && RecordOk(log, i);
      }
    }
  }

  /** A record other than a send adds to no user's sends. */
  lemma SendsUnchanged(log: seq<Record>, r: Record)
    requires SendsAdmitted(log) && !r.Sent?
    ensures SendsAdmitted(log + [r])
  {
    hide CustomSends, AdmittedTimes, After;
    forall u, c
      ensures |After(CustomSends(log + [r], u), c)| <= |After(AdmittedTimes(log + [r], u), c)|
    {
      Pushed(log, r, u, 0);
      if r.Admitted? && r.user == u {
        AfterPush(AdmittedTimes(log, u), r.at, c);
      }
      assert CustomSends(log, u) + [] == CustomSends(log, u) && AdmittedTimes(log, u) + [] == AdmittedTimes(log, u);
    }
  }

  /** A send that follows its admission keeps the counts in order. */
  lemma SendsFollow(log: seq<Record>, u: int, limit: int, chat: string, at: int)
    requires SendsAdmitted(log)
    ensures SendsAdmitted(log + [Admitted(u, at, limit)] + [Sent(u, chat, "custom", at)])
  {
    hide CustomSends, AdmittedTimes, After;
    var a, r := Admitted(u, at, limit), Sent(u, chat, "custom", at);
    forall v, c
      ensures |After(CustomSends(log + [a] + [r], v), c)| <= |After(AdmittedTimes(log + [a] + [r], v), c)|
    {
      Pushed(log, a, v, 0);
      Pushed(log + [a], r, v, 0);
      AfterPush(AdmittedTimes(log, v), at, c);
      AfterPush(CustomSends(log, v), at, c);
      var sends, admissions := CustomSends(log, v), AdmittedTimes(log, v);
      assert sends + [] == sends && admissions + [] == admissions && (admissions + [at]) + [] == admissions + [at];
      assert CustomSends(log + [a] + [r], v) == if v == u then sends + [at] else sends;
      assert AdmittedTimes(log + [a] + [r], v) == if v == u then admissions + [at] else admissions;
    }
  }

  lemma SendsOther(log: seq<Record>, r: Record)
    requires SendsAdmitted(log) && r.Sent? && r.category != "custom"
    ensures SendsAdmitted(log + [r])
  {
    hide CustomSends, AdmittedTimes, After;
    forall v, c
      ensures |After(CustomSends(log + [r], v), c)| <= |After(AdmittedTimes(log + [r], v), c)|
    {
      Pushed(log, r, v, 0);
      assert CustomSends(log, v) + [] == CustomSends(log, v) && AdmittedTimes(log, v) + [] == AdmittedTimes(log, v);
    }
  }

  // ---- steps that only touch delivery status ----

  lemma StatusKeepsInv(s: State, u: int, note: Note)
    requires Inv(s)
    ensures Inv(SetStatus(s, u, note))
  {
    hide HistoryOk, SendsAdmitted, OpenCode, LatestChat, Binds, Issues;
    var s' := SetStatus(s, u, note);
    forall v
      ensures RowMatches(ChannelOf(s', v), s'.log, v)
    {
      assert RowMatches(ChannelOf(s, v), s.log, v);
    }
    forall h
      ensures Holders(s', h) == Holders(s, h)
    {
      assert RowMatches(ChannelOf(s, u), s.log, u);
    }
  }

  /** A record about messages, not bindings, with the rows unchanged. */
  lemma MessageKeepsRows(s: State, r: Record)
    requires Linked(s) && Budgeted(s) && (r.Admitted? || r.Sent?)
    ensures Linked(s.(log := s.log + [r])) && Budgeted(s.(log := s.log + [r]))
  {
    hide OpenCode, LatestChat, Binds, Issues;
    var s' := s.(log := s.log + [r]);
    forall u
      ensures RowMatches(ChannelOf(s', u), s'.log, u)
    {
      Pushed(s.log, r, u, 0);
      assert RowMatches(ChannelOf(s, u), s.log, u);
    }
    forall h
      ensures Binds(s'.log, h) + |Holders(s', h)| <= Issues(s'.log, h)
    {
      Pushed(s.log, r, 0, h);
      assert Holders(s', h) == Holders(s, h);
    }
  }

  lemma HitsKeepInv(s: State, hits: map<string, seq<int>>)
    requires Inv(s)
    ensures Inv(s.(hits := hits))
  {
    hide HistoryOk, SendsAdmitted, OpenCode, LatestChat, Binds, Issues;
    var s' := s.(hits := hits);
    forall u
      ensures RowMatches(ChannelOf(s', u), s'.log, u)
    {
      assert RowMatches(ChannelOf(s, u), s.log, u);
    }
    forall h
      ensures Holders(s', h) == Holders(s, h)
    {
    }
  }

  // ---- deliveries ----

  lemma SendKeepsInv(cfg: Config, s: State, u: int, category: string, now: int, end: Ending)
    requires Inv(s) && category != "custom" && ChannelOf(s, u).status == Bound
    ensures Inv(Send(cfg, s, u, category, now, end))
  {
    hide OpenCode, Binds, Issues, CustomSends, AdmittedTimes, LatestChat;
    if cfg.hasSender {
      var r := Sent(u, ChannelOf(s, u).target, category, now);
      var s1 := s.(log := s.log + [r]);
      assert RowMatches(ChannelOf(s, u), s.log, u);
      assert (s.log + [r])[..|s.log|] == s.log;
      HistoryPushed(s.log, r);
      SendsOther(s.log, r);
      MessageKeepsRows(s, r);
      hide Inv, Linked, Budgeted, HistoryOk, SendsAdmitted;
      assert Inv(s1) by {
        InvOf(s1);
      }
      StatusKeepsInv(s1, u, SendNote(end));
    } else {
      StatusKeepsInv(s, u, Note(DeliveryFailed, "telegram sender is not configured", end.at));
    }
  }

  lemma InvOf(s: State)
    requires Linked(s) && Budgeted(s) && HistoryOk(s.log) && SendsAdmitted(s.log)
    ensures Inv(s)
  {
  }

  lemma CustomKeepsInv(cfg: Config, s: State, u: int, limit: int, now: int, end: Ending)
    requires Inv(s) && ChannelOf(s, u).status == Bound
    ensures Inv(Send(cfg, s.(log := s.log + [Admitted(u, now, limit)]), u, "custom", now, end))
  {
    hide OpenCode, Binds, Issues, CustomSends, AdmittedTimes, LatestChat;
    var a := Admitted(u, now, limit);
    var s1 := s.(log := s.log + [a]);
    HistoryPushed(s.log, a);
    SendsUnchanged(s.log, a);
    MessageKeepsRows(s, a);
    InvOf(s1);
    if cfg.hasSender {
      var r := Sent(u, ChannelOf(s1, u).target, "custom", now);
      var s2 := s1.(log := s1.log + [r]);
      assert RowMatches(ChannelOf(s1, u), s1.log, u);
      assert (s1.log + [r])[..|s1.log|] == s1.log && (s1.log + [r])[|s1.log| - 1] == a;
      HistoryPushed(s1.log, r);
      SendsFollow(s.log, u, limit, r.chat, now);
      MessageKeepsRows(s1, r);
      InvOf(s2);
      hide Inv, Linked, Budgeted, HistoryOk, SendsAdmitted;
      StatusKeepsInv(s2, u, SendNote(end));
    } else {
      StatusKeepsInv(s1, u, Note(DeliveryFailed, "telegram sender is not configured", end.at));
    }
  }

  lemma DeliverKeepsInv(cfg: Config, s: State, e: Event, now: int, end: Ending)
    requires Inv(s)
    ensures Inv(DeliverEvent(cfg, s, e, now, end))
  {
    hide Inv, ValidEvent, Send, SetStatus, CategoryOnPlan, CategoryWanted;
    var u := e.userId;
    forall note
      ensures Inv(SetStatus(s, u, note))
    {
      StatusKeepsInv(s, u, note);
    }
    if u in s.users && Blocked(e.category, SettingsOf(s, u), PlanOf(s, u), ChannelOf(s, u)).None? {
      var s1 := Limited(cfg, s, u, now);
      HitsKeepInv(s, s1.hits);
      StatusKeepsInv(s1, u, Note(RateLimited, "", end.at));
      if e.category == "custom" {
        CustomKeepsInv(cfg, s1, u, CustomLimit(PlanOf(s, u)), now, end);
      } else {
        SendKeepsInv(cfg, s, u, e.category, now, end);
      }
    }
  }

  // ---- codes and bindings ----

  /** Replacing one row: only its user's facts, and only the holders of its old and new code, change. */
  lemma RowChange(s: State, s': State, u: int, r: Record)
    requires Inv(s) && u in s.users && s'.users == s.users
    requires r.user == u && !r.Sent? && s'.log == s.log + [r] && s'.channels.Keys == s.channels.Keys + {u}
    requires forall v :: v in s.channels && v != u ==> s'.channels[v] == s.channels[v]
    requires RowMatches(s'.channels[u], s'.log, u) && RecordOk(s'.log, |s.log|)
    ensures Linked(s') && HistoryOk(s'.log) && SendsAdmitted(s'.log)
  {
    hide OpenCode, LatestChat, Binds, Issues, CustomSends, AdmittedTimes;
    HistoryPushed(s.log, r);
    SendsUnchanged(s.log, r);
    forall v
      ensures RowMatches(ChannelOf(s', v), s'.log, v)
    {
      if v != u {
        assert RowMatches(ChannelOf(s, v), s.log, v);
        Pushed(s.log, r, v, 0);
      }
    }
  }

  lemma SizeWithout(a: set<int>, u: int)
    ensures |a| == |a - {u}| + (if u in a then 1 else 0)
  {
    if u in a {
      assert a == (a - {u}) + {u};
    } else {
      assert a == a - {u};
    }
  }

  lemma OthersHold(s: State, s': State, u: int, h: int)
    requires s'.channels.Keys == s.channels.Keys + {u}
    requires forall v :: v in s.channels && v != u ==> s'.channels[v] == s.channels[v]
    ensures Holders(s', h) - {u} == Holders(s, h) - {u}
    ensures u in Holders(s', h) <==> s'.channels[u].code.Some? && s'.channels[u].code.value.hash == h
  {
    forall v | v != u
      ensures v in Holders(s', h) <==> v in Holders(s, h)
    {
      assert v in s'.channels.Keys <==> v in s.channels.Keys + {u};
      assert v in s'.channels <==> v in s.channels;
    }
    assert u in s'.channels.Keys;
  }

  lemma HoldersChange(s: State, s': State, u: int, h: int)
    requires s'.channels.Keys == s.channels.Keys + {u}
    requires forall v :: v in s.channels && v != u ==> s'.channels[v] == s.channels[v]
    ensures |Holders(s', h)| + (if u in Holders(s, h) then 1 else 0)
            == |Holders(s, h)| + (if s'.channels[u].code.Some? && s'.channels[u].code.value.hash == h then 1 else 0)
  {
    hide Holders;
    OthersHold(s, s', u, h);
    SizeWithout(Holders(s, h), u);
    SizeWithout(Holders(s', h), u);
  }

  /** The budget is kept when the row's new code is the one issued, or a bind gives its code up. */
  lemma BudgetChange(s: State, s': State, u: int, r: Record)
    requires Budgeted(s) && r.user == u && s'.log == s.log + [r] && s'.channels.Keys == s.channels.Keys + {u}
    requires forall v :: v in s.channels && v != u ==> s'.channels[v] == s.channels[v]
    requires s'.channels[u].code == if r.Issued? then Some(r.code) else None
    requires r.BoundBy? ==> u in Holders(s, r.hash)
    ensures Budgeted(s')
  {
    hide OpenCode, LatestChat, Binds, Issues, Holders;
    forall h
      ensures Binds(s'.log, h) + |Holders(s', h)| <= Issues(s'.log, h)
    {
      Pushed(s.log, r, u, h);
      HoldersChange(s, s', u, h);
    }
  }

  lemma CodeRow(cfg: Config, s: State, u: int, hash: int, now: int)
    requires Inv(s) && u > 0 && u in s.users
    ensures var s' := CreateBindCode(cfg, s, u, hash, now); RowMatches(s'.channels[u], s'.log, u)
  {
    hide OpenCode, LatestChat, Budgeted, HistoryOk, SendsAdmitted;
    assert RowMatches(ChannelOf(s, u), s.log, u);
    Pushed(s.log, Issued(u, Code(hash, now + cfg.codeTtl)), u, 0);
  }

  lemma CodeKeepsInv(cfg: Config, s: State, u: int, hash: int, now: int)
    requires Inv(s)
    ensures Inv(CreateBindCode(cfg, s, u, hash, now))
  {
    if u > 0 && u in s.users {
      var s' := CreateBindCode(cfg, s, u, hash, now);
      var r := Issued(u, Code(hash, now + cfg.codeTtl));
      CodeRow(cfg, s, u, hash, now);
      hide OpenCode, LatestChat, RowMatches, SendsAdmitted, HistoryOk, Budgeted, Linked, Holders, Binds, Issues;
      assert s'.log[|s.log|] == r;
      RowChange(s, s', u, r);
      BudgetChange(s, s', u, r);
    }
  }

  lemma BindKeepsInv(s: State, u: int, hash: int, chat: int, now: int)
    requires Inv(s) && Redeemable(s, u, hash, now)
    ensures Inv(BindTo(s, u, hash, chat, now))
  {
    var s' := BindTo(s, u, hash, chat, now);
    hide OpenCode, LatestChat, Binds, Issues, Decimal;
    var r := BoundBy(u, hash, Decimal(chat), now);
    Pushed(s.log, r, u, 0);
    assert RowMatches(ChannelOf(s, u), s.log, u);
    assert s'.log[..|s.log|] == s.log;
    DecimalInjective(chat, chat);
    TrimmedIsFixed(Decimal(chat));
    RowChange(s, s', u, r);
    BudgetChange(s, s', u, r);
  }

  lemma UnbindKeepsInv(s: State, u: int)
    requires Inv(s)
    ensures Inv(Unbind(s, u))
  {
    var s' := Unbind(s, u);
    if u in s.users {
      hide OpenCode, LatestChat, Binds, Issues;
      var r := UnboundBy(u);
      Pushed(s.log, r, u, 0);
      RowChange(s, s', u, r);
      BudgetChange(s, s', u, r);
    }
  }

  lemma TablesKeepInv(s: State, s': State)
    requires Inv(s) && s'.channels == s.channels && s'.log == s.log && s.users.Keys <= s'.users.Keys
    ensures Inv(s')
  {
    hide HistoryOk, SendsAdmitted, OpenCode, LatestChat, Binds, Issues;
    forall u
      ensures RowMatches(ChannelOf(s', u), s'.log, u)
    {
      assert RowMatches(ChannelOf(s, u), s.log, u);
    }
    forall h
      ensures Holders(s', h) == Holders(s, h)
    {
    }
  }

  lemma {:induction false} StepKeepsInv(cfg: Config, s: State, op: Op)
    requires Inv(s)
    ensures Inv(Step(cfg, s, op))
  {
    hide Inv, DeliverEvent, CreateBindCode, BindTo, Unbind;
    match op
    case OpDeliver(e, now, end) => DeliverKeepsInv(cfg, s, e, now, end);
    case OpCreateCode(u, hash, now) => CodeKeepsInv(cfg, s, u, hash, now);
    case OpTelegram(row, hash, chat, now) =>
      if Chosen(s, row, hash, now) {
        BindKeepsInv(s, row, hash, chat, now);
      }
    case OpUnbind(u) => UnbindKeepsInv(s, u);
    case _ => TablesKeepInv(s, Step(cfg, s, op));
  }

  lemma {:induction false} RunKeepsInv(cfg: Config, ops: seq<Op>)
    ensures Inv(Notified(cfg, ops))
  {
    if ops == [] {
      InitialInv();
    } else {
      RunKeepsInv(cfg, ops[..|ops| - 1]);
      StepKeepsInv(cfg, Notified(cfg, ops[..|ops| - 1]), ops[|ops| - 1]);
    }
  }

  lemma InitialInv()
    ensures Inv(INITIAL)
  {
    assert TrimSpace("") == "";
    forall h
      ensures Holders(INITIAL, h) == {}
    {
    }
  }
}
