/** What a whole run of authentication requests guarantees. */
module AuthTheorems {
  import opened AuthLists
  import opened AuthSession

  predicate GoodSub(sub: Option<string>) { sub.Some? ==> Free(sub.value, ',') }

  /** Submethods are device names, which contain no comma. */
  predicate GoodEvent(ev: Event) { ev.verdict.Postponed? ==> GoodSub(ev.verdict.device) }

  predicate GoodTable(table: seq<Cfg>) { forall c | c in table :: Plain(c.name) }

  predicate GoodSuccess(s: Success) { Plain(s.name) && GoodSub(s.sub) }

  /** The machine just after auth2_setup_methods_lists kept the lists `conf`. */
  function Begin(conf: seq<string>): Auth { Auth(conf, true, None, 0, 0, None, [], Going) }

  /** Each remaining string parses to the configured list with its greedily matched front gone,
      and none is finished. */
  predicate InStep(conf: seq<string>, lists: seq<string>, log: seq<Success>) {
    |lists| == |conf|
    && forall i | 0 <= i < |conf| ::
         WellFormed(lists[i]) && Parse(lists[i]) == Greedy(Parse(conf[i]), log)
         && Parse(lists[i]) != []
  }

  predicate Finished(conf: seq<string>, log: seq<Success>) {
    exists i | 0 <= i < |conf| :: Greedy(Parse(conf[i]), log) == []
  }

  /** Some remaining list begins with an item that the success completes. */
  predicate Takes(conf: seq<string>, log: seq<Success>, s: Success) {
    exists i | 0 <= i < |conf| ::
      var rest := Greedy(Parse(conf[i]), log);
      rest != [] && Meets(rest[0], s)
  }

  predicate SessionInv(conf: seq<string>, a: Auth) {
    && a.multi
    && (a.phase == Authenticated <==> Finished(conf, a.log))
    && (forall k | 0 <= k < |a.log| :: !Finished(conf, a.log[..k]))
    && (a.phase == Going ==> InStep(conf, a.lists, a.log))
    && (a.phase == Going && a.pending.Some? ==> GoodSub(a.pending) && Takes(conf, a.log, Success(KBDINT, a.pending)))
  }

  /** One list, one success: the string and the parsed list change together. */
  lemma OneList(conf: string, list: string, log: seq<Success>, s: Success)
    requires WellFormed(list) && Parse(list) == Greedy(Parse(conf), log) && GoodSuccess(s)
    ensures var r := RemoveMethod(list, s.name, s.sub);
            && Parse(list) != []
            && (r.Some? <==> Meets(Parse(list)[0], s))
            && (r == Some("") <==> Greedy(Parse(conf), log + [s]) == [])
            && Parse(Removed(list, s)) == Greedy(Parse(conf), log + [s])
            && (r == Some("") || WellFormed(Removed(list, s)))
  {
    hide Parse, RemoveMethod;
    RemoveIsDrop(list, s.name, s.sub);
    assert (log + [s])[..|log|] == log;
    var r := RemoveMethod(list, s.name, s.sub);
    if r.Some? && r.value != "" { NotEmpty(r.value); }
    assert Parse("") == [] by { ParseEmpty(); }
  }

  lemma ParseEmpty()
    ensures Parse("") == []
  {
  }

  lemma NotEmpty(s: string)
    requires WellFormed(s)
    ensures Parse(s) != []
  {
    HeadToken(s);
  }

  /** All lists at once. */
  lemma AdvanceIsGreedy(conf: seq<string>, lists: seq<string>, log: seq<Success>, s: Success)
    requires InStep(conf, lists, log) && GoodSuccess(s)
    ensures var u := Advance(lists, s);
            && (u.Done? <==> Finished(conf, log + [s]))
            && (u.More? ==> InStep(conf, u.lists, log + [s]))
  {
    hide RemoveMethod, Parse, Greedy;
    forall i | 0 <= i < |conf|
      ensures Parse(lists[i]) != []
      ensures RemoveMethod(lists[i], s.name, s.sub) == Some("") <==> Greedy(Parse(conf[i]), log + [s]) == []
      ensures Parse(Removed(lists[i], s)) == Greedy(Parse(conf[i]), log + [s])
      ensures RemoveMethod(lists[i], s.name, s.sub) == Some("") || WellFormed(Removed(lists[i], s))
    {
      OneList(conf[i], lists[i], log, s);
    }
  }

  /** A success ends in the "method not in AuthenticationMethods" exit exactly when no remaining
      list begins with an item that it completes. */
  lemma BrokenWhen(conf: seq<string>, lists: seq<string>, log: seq<Success>, s: Success)
    requires InStep(conf, lists, log) && GoodSuccess(s)
    ensures Advance(lists, s).Broken? <==> forall i | 0 <= i < |lists| :: !Meets(Parse(lists[i])[0], s)
    ensures Advance(lists, s).Broken? <==> !Takes(conf, log, s)
  {
    hide RemoveMethod, Parse, Greedy;
    forall i | 0 <= i < |conf|
      ensures RemoveMethod(lists[i], s.name, s.sub).Some? <==> Meets(Parse(lists[i])[0], s)
      ensures RemoveMethod(lists[i], s.name, s.sub) == Some("") ==> Meets(Parse(lists[i])[0], s)
    {
      OneList(conf[i], lists[i], log, s);
    }
  }

  lemma FinishKeeps(conf: seq<string>, a: Auth, s: Success, packetName: string, v: Verdict, maxTries: nat)
    requires SessionInv(conf, a) && a.phase == Going && a.pending.None? && (v.Accept? ==> GoodSuccess(s))
    ensures SessionInv(conf, Finish(a, s, packetName, v, maxTries))
    ensures Finish(a, s, packetName, v, maxTries).log
            == a.log + if v.Accept? && Takes(conf, a.log, s) then [s] else []
  {
    hide Advance, InStep, Finished, Takes, HalfCut;
    assert a.log + [] == a.log;
    if v.Accept? {
      AdvanceIsGreedy(conf, a.lists, a.log, s);
      BrokenWhen(conf, a.lists, a.log, s);
      var log := a.log + [s];
      assert log[..|a.log|] == a.log;
      assert forall k | 0 <= k < |a.log| :: log[..k] == a.log[..k];
    }
  }

  /** A device whose questions can be put has a first item that its success completes. */
  lemma AskedIsTaken(conf: seq<string>, a: Auth, v: Verdict)
    requires a.multi && InStep(conf, a.lists, a.log) && Asks(a, v) && GoodSub(v.device)
    ensures Takes(conf, a.log, Success(KBDINT, v.device))
  {
    hide WellFormed, Parse, Greedy, ListStartsWith;
    var i :| 0 <= i < |a.lists| && ListStartsWith(a.lists[i], KBDINT, v.device) != MatchNone;
    assert Plain(KBDINT);
    StartsWithIsAnswer(a.lists[i], KBDINT, v.device);
  }

  lemma ChallengeKeeps(conf: seq<string>, a: Auth, s: Success, packetName: string, v: Verdict, maxTries: nat)
    requires SessionInv(conf, a) && a.phase == Going && (v.Accept? ==> GoodSuccess(s))
    requires v.Postponed? ==> GoodSub(v.device)
    ensures SessionInv(conf, Challenge(a, s, packetName, v, maxTries))
    ensures Challenge(a, s, packetName, v, maxTries).log
            == a.log + if v.Accept? && Takes(conf, a.log, s) then [s] else []
  {
    hide InStep, Finished, Finish, Takes, Asks;
    if Asks(a, v) {
      assert v.Postponed? by { AsksMeans(a, v); }
      AskedIsTaken(conf, a, v);
      assert a.log + [] == a.log;
    } else {
      FinishKeeps(conf, a.(pending := None), s, packetName, if v.Postponed? then Reject(false) else v, maxTries);
    }
  }

  lemma AsksMeans(a: Auth, v: Verdict)
    requires Asks(a, v)
    ensures v.Postponed?
  {
  }

  lemma {:induction false} ByNamePlain(table: seq<Cfg>, name: string)
    requires GoodTable(table)
    ensures ByName(table, name).Some? ==> Plain(ByName(table, name).value)
  {
    if table != [] { ByNamePlain(table[1..], name); }
  }

  /** What an event is credited with, said of the configured lists, the credits so far and the event: a request for
      a known and enabled method, for the same user and service and within the limits, or the answer to an open
      keyboard-interactive exchange, that is accepted and completes the first item of what remains of some list. */
  function Credit(conf: seq<string>, table: seq<Cfg>, maxTries: nat, a: Auth, ev: Event): seq<Success> {
    if a.phase != Going || !ev.verdict.Accept? then []
    else
      match ev
      case Request(who, name, enabled, _) =>
        var m := ByName(table, name);
        if Admitted(a, who) && a.failures < maxTries && enabled && m.Some? && m.value != KBDINT
           && Takes(conf, a.log, Success(m.value, None))
        then [Success(m.value, None)] else []
      case Response(_) => if a.pending.Some? then [Success(KBDINT, a.pending)] else []
  }

  lemma StepKeeps(conf: seq<string>, a: Auth, table: seq<Cfg>, maxTries: nat, ev: Event)
    requires SessionInv(conf, a) && GoodTable(table) && GoodEvent(ev)
    ensures SessionInv(conf, Step(a, table, maxTries, ev))
    ensures Step(a, table, maxTries, ev).log == a.log + Credit(conf, table, maxTries, a, ev)
  {
    hide InStep, Finished, Finish, Challenge, Takes, Allowed;
    assert a.log + [] == a.log;
    if a.phase == Going {
      match ev
      case Request(who, name, enabled, verdict) => RequestKeeps(conf, a, table, maxTries, who, name, enabled, verdict);
      case Response(verdict) =>
        assert Plain(KBDINT);
        if a.pending.Some? { ChallengeKeeps(conf, a, Success(KBDINT, a.pending), KBDINT, verdict, maxTries); }
    }
  }

  lemma RequestKeeps(conf: seq<string>, a: Auth, table: seq<Cfg>, maxTries: nat,
                     who: Login, name: string, enabled: bool, v: Verdict)
    requires SessionInv(conf, a) && a.phase == Going && GoodTable(table) && GoodEvent(Request(who, name, enabled, v))
    ensures SessionInv(conf, Step(a, table, maxTries, Request(who, name, enabled, v)))
    ensures Step(a, table, maxTries, Request(who, name, enabled, v)).log
            == a.log + Credit(conf, table, maxTries, a, Request(who, name, enabled, v))
  {
    hide InStep, Finished, Finish, Challenge, Takes, Allowed;
    assert a.log + [] == a.log;
    var b := a.(who := Some(who), attempt := a.attempt + 1, pending := None);
    var m := ByName(table, name);
    ByNamePlain(table, name);
    FinishKeeps(conf, b, Success(name, None), name, Reject(false), maxTries);
    if m.Some? {
      TakenIsAllowed(conf, a, m.value);
      FinishKeeps(conf, b, Success(m.value, None), name, v, maxTries);
      ChallengeKeeps(conf, b, Success(KBDINT, None), name, if v.Accept? then Reject(false) else v, maxTries);
    }
  }

  /** A method that completes a first item is one that is offered. */
  lemma TakenIsAllowed(conf: seq<string>, a: Auth, name: string)
    requires a.multi && InStep(conf, a.lists, a.log) && Plain(name)
    ensures Takes(conf, a.log, Success(name, None)) ==> Allowed(a, name, None)
  {
    hide WellFormed, Parse, Greedy, ListStartsWith;
    if Takes(conf, a.log, Success(name, None)) {
      var i :| 0 <= i < |conf| && Greedy(Parse(conf[i]), a.log) != []
               && Meets(Greedy(Parse(conf[i]), a.log)[0], Success(name, None));
      StartsWithIsAnswer(a.lists[i], name, None);
    }
  }

  lemma {:induction false} RunKeeps(conf: seq<string>, table: seq<Cfg>, maxTries: nat, events: seq<Event>)
    requires conf != [] && (forall i | 0 <= i < |conf| :: WellFormed(conf[i]))
    requires GoodTable(table) && forall ev | ev in events :: GoodEvent(ev)
    ensures SessionInv(conf, Run(Begin(conf), table, maxTries, events))
  {
    if events == [] {
      forall i | 0 <= i < |conf| ensures Parse(conf[i]) != [] { NotEmpty(conf[i]); }
      assert forall i | 0 <= i < |conf| :: Greedy(Parse(conf[i]), []) == Parse(conf[i]);
    } else {
      var n := |events| - 1;
      RunKeeps(conf, table, maxTries, events[..n]);
      StepKeeps(conf, Run(Begin(conf), table, maxTries, events[..n]), table, maxTries, events[n]);
    }
  }

  /** Authentication completes exactly when some configured list is an in-order subsequence of
      the successes so far; no earlier point of the run had that, so every earlier success was
      a partial one; while the run goes on each list string still parses to the configured
      list without its greedily matched front; and each event adds to the successes exactly what
      it is credited with. */
  lemma AuthenticationRun(conf: seq<string>, table: seq<Cfg>, maxTries: nat, events: seq<Event>)
    requires conf != [] && (forall i | 0 <= i < |conf| :: WellFormed(conf[i]))
    requires GoodTable(table) && forall ev | ev in events :: GoodEvent(ev)
    ensures var a := Run(Begin(conf), table, maxTries, events);
            && (a.phase == Authenticated <==>
                  exists i | 0 <= i < |conf| :: Satisfied(Parse(conf[i]), a.log))
            && (forall k, i | 0 <= k < |a.log| && 0 <= i < |conf| :: !Satisfied(Parse(conf[i]), a.log[..k]))
            && (a.phase == Going ==> InStep(conf, a.lists, a.log))
    ensures Run(Begin(conf), table, maxTries, []).log == []
    ensures forall k | 0 <= k < |events| ::
              var b := Run(Begin(conf), table, maxTries, events[..k]);
              var t := Run(Begin(conf), table, maxTries, events[..k + 1]);
              t.log == b.log + Credit(conf, table, maxTries, b, events[k])
  {
    hide Credit, Step;
    RunKeeps(conf, table, maxTries, events);
    var a := Run(Begin(conf), table, maxTries, events);
    forall i, log | 0 <= i < |conf|
      ensures Greedy(Parse(conf[i]), log) == [] <==> Satisfied(Parse(conf[i]), log)
    {
      GreedyDecides(Parse(conf[i]), log);
    }
    forall k | 0 <= k < |events|
      ensures var b := Run(Begin(conf), table, maxTries, events[..k]);
              var t := Run(Begin(conf), table, maxTries, events[..k + 1]);
              t.log == b.log + Credit(conf, table, maxTries, b, events[k])
    {
      RunCredits(conf, table, maxTries, events, k);
    }
  }

  lemma RunCredits(conf: seq<string>, table: seq<Cfg>, maxTries: nat, events: seq<Event>, k: nat)
    requires conf != [] && (forall i | 0 <= i < |conf| :: WellFormed(conf[i]))
    requires GoodTable(table) && (forall ev | ev in events :: GoodEvent(ev)) && k < |events|
    ensures var b := Run(Begin(conf), table, maxTries, events[..k]);
            var t := Run(Begin(conf), table, maxTries, events[..k + 1]);
            t.log == b.log + Credit(conf, table, maxTries, b, events[k])
  {
    hide Credit, Step, SessionInv, WellFormed;
    assert events[..k + 1][..k] == events[..k] && events[k] in events;
    RunKeeps(conf, table, maxTries, events[..k]);
    StepKeeps(conf, Run(Begin(conf), table, maxTries, events[..k]), table, maxTries, events[k]);
  }

  // ---------- an open exchange belongs to the latest request ----------

  /** Event k is a request for keyboard-interactive, and only answers have come since; one of these events named the
      device. */
  predicate Exchange(table: seq<Cfg>, events: seq<Event>, k: nat, device: Option<string>) {
    && k < |events| && events[k].Request? && events[k].enabled && ByName(table, events[k].name) == Some(KBDINT)
    && (forall j | k < j < |events| :: events[j].Response?)
    && exists j | k <= j < |events| :: events[j].verdict == Postponed(device)
  }

  lemma StepPending(a: Auth, table: seq<Cfg>, maxTries: nat, ev: Event)
    ensures var t := Step(a, table, maxTries, ev);
            t.phase == Going && t.pending.Some? ==>
              && a.phase == Going && ev.verdict == Postponed(t.pending) && t.failures == a.failures
              && (if ev.Request? then ev.enabled && ByName(table, ev.name) == Some(KBDINT) && a.failures < maxTries
                  else a.pending.Some?)
  {
  }

  /** Questions are open only because the latest request was for keyboard-interactive and postponed; so an answer is
      credited to that method and to a device it named, and never to an exchange that another request has ended. */
  lemma {:induction false} OpenExchange(conf: seq<string>, table: seq<Cfg>, maxTries: nat, events: seq<Event>)
    returns (k: nat)
    requires var a := Run(Begin(conf), table, maxTries, events); a.phase == Going && a.pending.Some?
    ensures var a := Run(Begin(conf), table, maxTries, events);
            Exchange(table, events, k, a.pending) && a.failures < maxTries
  {
    hide Step;
    var n := |events| - 1;
    var before := events[..n];
    var a := Run(Begin(conf), table, maxTries, before);
    StepPending(a, table, maxTries, events[n]);
    if events[n].Request? {
      k := n;
    } else {
      k := OpenExchange(conf, table, maxTries, before);
    }
  }

  // ---------- one user, one service ----------

  lemma StepLogin(a: Auth, table: seq<Cfg>, maxTries: nat, ev: Event)
    requires a.attempt == 0 <==> a.who.None?
    ensures var t := Step(a, table, maxTries, ev);
            && (t.attempt == 0 <==> t.who.None?)
            && (a.who.Some? ==> t.who == a.who)
            && (a.phase == Going && ev.Request? && t.phase != Refused ==> t.who == Some(ev.who))
  {
  }

  lemma {:induction false} RunLogin(conf: seq<string>, table: seq<Cfg>, maxTries: nat, events: seq<Event>)
    ensures var a := Run(Begin(conf), table, maxTries, events);
            && (a.attempt == 0 <==> a.who.None?)
            && (a.phase == Going ==> forall j | 0 <= j < |events| && events[j].Request? :: a.who == Some(events[j].who))
  {
    hide Step;
    if events != [] {
      var n := |events| - 1;
      var b := Run(Begin(conf), table, maxTries, events[..n]);
      RunLogin(conf, table, maxTries, events[..n]);
      StepLogin(b, table, maxTries, events[n]);
      if b.phase != Going { EndedStays(b, table, maxTries, events[n]); }
      assert forall j | 0 <= j < n :: events[..n][j] == events[j];
    }
  }

  lemma EndedStays(a: Auth, table: seq<Cfg>, maxTries: nat, ev: Event)
    requires a.phase != Going
    ensures Step(a, table, maxTries, ev) == a
  {
  }

  /** No run mixes users or services: a request that is reached and not refused is for the same login as every
      request before it. */
  lemma OneLogin(conf: seq<string>, table: seq<Cfg>, maxTries: nat, events: seq<Event>, j: nat, k: nat)
    requires j < k < |events| && events[j].Request? && events[k].Request?
    requires Run(Begin(conf), table, maxTries, events[..k]).phase == Going
    requires Run(Begin(conf), table, maxTries, events[..k + 1]).phase != Refused
    ensures events[j].who == events[k].who
  {
    hide Step;
    RunLogin(conf, table, maxTries, events[..k]);
    assert events[..k][j] == events[j] && events[..k + 1][..k] == events[..k];
    StepLogin(Run(Begin(conf), table, maxTries, events[..k]), table, maxTries, events[k]);
  }

  // ---------- every partial success makes progress ----------

  function TotalLength(lists: seq<string>): nat {
    if lists == [] then 0 else |lists[0]| + TotalLength(lists[1..])
  }

  lemma {:induction false} Shrinks(old_: seq<string>, new_: seq<string>)
    requires |old_| == |new_| && forall i | 0 <= i < |old_| :: |new_[i]| <= |old_[i]|
    ensures TotalLength(new_) <= TotalLength(old_)
    ensures (exists i | 0 <= i < |old_| :: |new_[i]| < |old_[i]|) ==> TotalLength(new_) < TotalLength(old_)
  {
    if old_ != [] {
      Shrinks(old_[1..], new_[1..]);
      forall i | 0 < i < |old_| ensures old_[i] == old_[1..][i - 1] && new_[i] == new_[1..][i - 1] {}
    }
  }

  lemma PartialProgress(lists: seq<string>, s: Success)
    requires Plain(s.name) && Advance(lists, s).More?
    ensures TotalLength(Advance(lists, s).lists) < TotalLength(lists)
  {
    hide ListStartsWith;
    Shrinks(lists, Advance(lists, s).lists);
  }

  predicate NoSubmethods(items: seq<Item>) { forall x | x in items :: x.sub.None? }

  lemma {:induction false} GreedyNoSubmethods(items: seq<Item>, log: seq<Success>)
    requires NoSubmethods(items)
    ensures NoSubmethods(Greedy(items, log))
  {
    GreedyIsSuffix(items, log);
  }

  /** The first item of some remaining list is the method without a submethod. */
  predicate OfferedPlainly(conf: seq<string>, log: seq<Success>, name: string) {
    exists i | 0 <= i < |conf| ::
      var rest := Greedy(Parse(conf[i]), log);
      rest != [] && rest[0] == Item(name, None)
  }

  /** On every run, a request for an offered method that the method accepts ends in that exit exactly if all the
      first items of that name ask for a submethod, and is credited otherwise; over lists without submethods it
      never does. */
  lemma RequestNeverBreaks(conf: seq<string>, table: seq<Cfg>, maxTries: nat, events: seq<Event>,
                           who: Login, name: string)
    requires conf != [] && (forall i | 0 <= i < |conf| :: WellFormed(conf[i]))
    requires GoodTable(table) && forall ev | ev in events :: GoodEvent(ev)
    ensures var a := Run(Begin(conf), table, maxTries, events);
            var m := ByName(table, name);
            var t := Step(a, table, maxTries, Request(who, name, true, Accept));
            a.phase == Going && Admitted(a, who) && a.failures < maxTries
            && m.Some? && m.value != KBDINT && Allowed(a, m.value, None) ==>
              && (t.phase == Refused <==> !OfferedPlainly(conf, a.log, m.value))
              && (t.phase != Refused ==> t.log == a.log + [Success(m.value, None)])
              && ((forall i | 0 <= i < |conf| :: NoSubmethods(Parse(conf[i]))) ==> t.phase != Refused)
  {
    hide Run, WellFormed, Parse, Greedy, Advance, Allowed, Step, Takes, NoSubmethods, OfferedPlainly;
    RunKeeps(conf, table, maxTries, events);
    ByNamePlain(table, name);
    var a := Run(Begin(conf), table, maxTries, events);
    var m := ByName(table, name);
    if a.phase == Going && Admitted(a, who) && a.failures < maxTries
       && m.Some? && m.value != KBDINT && Allowed(a, m.value, None) {
      BrokenWhen(conf, a.lists, a.log, Success(m.value, None));
      AcceptedStep(a, table, maxTries, who, name);
      PlainlyTaken(conf, a.log, m.value);
      if forall i | 0 <= i < |conf| :: NoSubmethods(Parse(conf[i])) { OfferedIsPlain(conf, a, m.value); }
    }
  }

  lemma AcceptedStep(a: Auth, table: seq<Cfg>, maxTries: nat, who: Login, name: string)
    requires a.multi && a.phase == Going && Admitted(a, who) && a.failures < maxTries
    requires var m := ByName(table, name); m.Some? && m.value != KBDINT && Allowed(a, m.value, None)
    ensures var t := Step(a, table, maxTries, Request(who, name, true, Accept));
            var s := Success(ByName(table, name).value, None);
            && (t.phase == Refused <==> Advance(a.lists, s).Broken?)
            && (t.phase != Refused ==> t.log == a.log + [s])
  {
    hide Advance, HalfCut;
  }

  lemma PlainlyTaken(conf: seq<string>, log: seq<Success>, name: string)
    ensures Takes(conf, log, Success(name, None)) <==> OfferedPlainly(conf, log, name)
  {
    hide Parse, Greedy;
  }

  lemma OfferedIsPlain(conf: seq<string>, a: Auth, name: string)
    requires a.multi && InStep(conf, a.lists, a.log) && Plain(name) && Allowed(a, name, None)
    requires forall i | 0 <= i < |conf| :: NoSubmethods(Parse(conf[i]))
    ensures OfferedPlainly(conf, a.log, name)
  {
    hide WellFormed, Parse, Greedy, ListStartsWith;
    var i :| 0 <= i < |a.lists| && ListStartsWith(a.lists[i], name, None) != MatchNone;
    GreedyNoSubmethods(Parse(conf[i]), a.log);
    StartsWithIsAnswer(a.lists[i], name, None);
    assert Parse(a.lists[i])[0] in Parse(a.lists[i]);
  }

  /** On every run, whatever the lists ask for, an accepted answer to an open exchange is credited and never ends in
      that exit. */
  lemma ResponseNeverBreaks(conf: seq<string>, table: seq<Cfg>, maxTries: nat, events: seq<Event>)
    requires conf != [] && (forall i | 0 <= i < |conf| :: WellFormed(conf[i]))
    requires GoodTable(table) && forall ev | ev in events :: GoodEvent(ev)
    ensures var a := Run(Begin(conf), table, maxTries, events);
            var t := Step(a, table, maxTries, Response(Accept));
            a.phase == Going && a.pending.Some? ==>
              t.phase != Refused && t.log == a.log + [Success(KBDINT, a.pending)] && t.pending.None?
  {
    hide Run, WellFormed, InStep, Finished, Takes, Advance, Step, Exchange;
    RunKeeps(conf, table, maxTries, events);
    var a := Run(Begin(conf), table, maxTries, events);
    if a.phase == Going && a.pending.Some? {
      var k := OpenExchange(conf, table, maxTries, events);
      PlainKbdint();
      BrokenWhen(conf, a.lists, a.log, Success(KBDINT, a.pending));
      AnsweredStep(a, table, maxTries);
    }
  }

  lemma PlainKbdint()
    ensures Plain(KBDINT)
  {
  }

  lemma AnsweredStep(a: Auth, table: seq<Cfg>, maxTries: nat)
    requires a.multi && a.phase == Going && a.pending.Some? && a.failures < maxTries
    requires !Advance(a.lists, Success(KBDINT, a.pending)).Broken?
    ensures var t := Step(a, table, maxTries, Response(Accept));
            t.phase != Refused && t.log == a.log + [Success(KBDINT, a.pending)] && t.pending.None?
  {
    hide Advance, HalfCut;
  }

  /** Such a success is possible.  A list that asks for a submethod of `name` is well formed and
      `name` is offered, but a success of `name` without a submethod completes nothing; every
      method other than keyboard-interactive reports its success without one. */
  lemma SubmethodNeverGiven(name: string, x: string)
    requires Plain(name) && Free(x, ',')
    ensures var list := name + ":" + x;
            && WellFormed(list) && Parse(list) == [Item(name, Some(x))]
            && Allowed(Begin([list]), name, None)
            && Advance([list], Success(name, None)) == Broken
  {
    var list := name + ":" + x;
    CutIs(list, ',', |list|);
    assert list[..|list|] == list && list[..|name|] == name && list[|name| + 1..] == x;
    CutIs(list, ':', |name|);
    HeadToken(list);
    assert Tokens(list) == [list];
    StartsWithIsAnswer(list, name, None);
    assert Begin([list]).lists[0] == list;
  }
}
