/** The authentication context as the program keeps it, with its loops over the method lists. */
module AuthObject {
  import opened AuthLists
  import opened AuthSession
  import opened AuthTheorems

  /** The table has a method of that name, enabled if that is asked for. */
  predicate Known(table: seq<Cfg>, name: string, needEnable: bool, enabled: set<string>) {
    (exists c | c in table :: c.name == name) && (needEnable ==> name in enabled)
  }

  predicate ValidList(table: seq<Cfg>, s: string, needEnable: bool, enabled: set<string>) {
    s != "" && forall t | t in Tokens(s) :: Known(table, ItemOf(t).name, needEnable, enabled)
  }

  /** A list that passes the check, against a table of plain names, is well formed. */
  lemma ValidIsWellFormed(table: seq<Cfg>, s: string, needEnable: bool, enabled: set<string>)
    requires ValidList(table, s, needEnable, enabled) && forall c | c in table :: Plain(c.name)
    ensures WellFormed(s)
  {
  }

  /** The configured lists that survive, in order. */
  function Kept(table: seq<Cfg>, lists: seq<string>, enabled: set<string>): seq<string> {
    if lists == [] then []
    else
      var n := |lists| - 1;
      Kept(table, lists[..n], enabled)
      + (if ValidList(table, lists[n], true, enabled) then [lists[n]] else [])
  }

  lemma {:induction false} KeptAreWellFormed(table: seq<Cfg>, lists: seq<string>, enabled: set<string>)
    requires GoodTable(table)
    ensures forall s | s in Kept(table, lists, enabled) :: WellFormed(s)
  {
    hide WellFormed, ValidList;
    if lists != [] {
      var n := |lists| - 1;
      KeptAreWellFormed(table, lists[..n], enabled);
      if ValidList(table, lists[n], true, enabled) { ValidIsWellFormed(table, lists[n], true, enabled); }
    }
  }

  /** The methods the server is built with. */
  const TABLE: seq<Cfg> := [
    Cfg("none", None),
    Cfg("publickey", Some("publickey-hostbound-v00@openssh.com")),
    Cfg("gssapi-with-mic", None),
    Cfg("password", None),
    Cfg("keyboard-interactive", None),
    Cfg("hostbased", None)]

  lemma TableIsGood()
    ensures GoodTable(TABLE)
  {
    hide Plain;
    ShortNames();
    LongNames();
    forall c | c in TABLE ensures Plain(c.name) {
      var i :| 0 <= i < 6 && c == TABLE[i];
      if i == 0 { } else if i == 1 { } else if i == 2 { } else if i == 3 { } else if i == 4 { } else { }
    }
  }

  lemma ShortNames()
    ensures Plain("none") && Plain("publickey") && Plain("password") && Plain("hostbased")
  {
  }

  lemma LongNames()
    ensures Plain("gssapi-with-mic") && Plain("keyboard-interactive")
  {
  }

  /** From the configuration file on: whatever AuthenticationMethods says, a run over the lists that are kept
      authenticates exactly when one of them is an in-order subsequence of the successes; no earlier point of the
      run had that; until then each list string parses to the kept list without its greedily matched front; and each
      event adds to the successes exactly what it is credited with. */
  lemma ConfiguredRun(configured: seq<string>, enabled: set<string>, maxTries: nat, events: seq<Event>)
    requires Kept(TABLE, configured, enabled) != [] && forall ev | ev in events :: GoodEvent(ev)
    ensures var conf := Kept(TABLE, configured, enabled);
            var a := Run(Begin(conf), TABLE, maxTries, events);
            && (a.phase == Authenticated <==> exists i | 0 <= i < |conf| :: Satisfied(Parse(conf[i]), a.log))
            && (forall k, i | 0 <= k < |a.log| && 0 <= i < |conf| :: !Satisfied(Parse(conf[i]), a.log[..k]))
            && (a.phase == Going ==> InStep(conf, a.lists, a.log))
    ensures var conf := Kept(TABLE, configured, enabled);
            && Run(Begin(conf), TABLE, maxTries, []).log == []
            && forall k | 0 <= k < |events| ::
                 var b := Run(Begin(conf), TABLE, maxTries, events[..k]);
                 Run(Begin(conf), TABLE, maxTries, events[..k + 1]).log
                 == b.log + Credit(conf, TABLE, maxTries, b, events[k])
  {
    hide Run, Kept, WellFormed, InStep, Credit;
    TableIsGood();
    KeptAreWellFormed(TABLE, configured, enabled);
    AuthenticationRun(Kept(TABLE, configured, enabled), TABLE, maxTries, events);
  }

  /** The inner loop: the table is searched for the name in front of the colon. */
  method LookUp(table: seq<Cfg>, token: string, needEnable: bool, enabled: set<string>) returns (ok: bool)
    ensures ok <==> Known(table, ItemOf(token).name, needEnable, enabled)
  {
    hide Cut;
    var name := token[..Cut(token, ':')];
    assert name == ItemOf(token).name by { if Cut(token, ':') == |token| { assert name == token; } }
    var i := 0;
    while i < |table|
      invariant 0 <= i <= |table|
      invariant forall j | 0 <= j < i :: table[j].name != name
    {
      if table[i].name == name {
        assert table[i] in table;
        return !needEnable || name in enabled;
      }
      i := i + 1;
    }
    ok := false;
  }

  /** auth2_methods_valid: cut the copy at each comma, then look the name up in the table. */
  method MethodsValid(table: seq<Cfg>, list: string, needEnable: bool, enabled: set<string>)
    returns (ok: bool)
    ensures ok <==> ValidList(table, list, needEnable, enabled)
  {
    hide ItemOf, Known, Cut;
    if list == "" { return false; }
    var rest, more := list, true;
    ghost var done: seq<string> := [];
    while more
      invariant Tokens(list) == if more then done + Tokens(rest) else done
      invariant forall t | t in done :: Known(table, ItemOf(t).name, needEnable, enabled)
      decreases more, |rest|
    {
      var k := Cut(rest, ',');
      var token := rest[..k];
      assert Tokens(rest)[0] == token by { if k == |rest| { assert token == rest; } }
      assert token in Tokens(list);
      var known := LookUp(table, token, needEnable, enabled);
      if !known { return false; }
      done := done + [token];
      more := k < |rest|;
      rest := if more then rest[k + 1..] else "";
    }
    return true;
  }

  lemma {:induction false} HalfCutIs(was: seq<string>, s: Success, i: nat, now: seq<string>)
    requires i < |was| == |now| && RemoveMethod(was[i], s.name, s.sub) == Some("")
    requires forall j | 0 <= j < i :: RemoveMethod(was[j], s.name, s.sub) != Some("")
    requires forall j | 0 <= j < |was| :: now[j] == if j <= i then Removed(was[j], s) else was[j]
    ensures HalfCut(was, s) == now
    decreases |was|
  {
    hide RemoveMethod;
    if i > 0 { HalfCutIs(was[1..], s, i - 1, now[1..]); }
  }

  class Authctxt {
    const table: seq<Cfg>
    const maxTries: nat
    var authMethods: seq<string>
    var multi: bool
    var login: Option<Login>
    var attempt: nat
    var failures: nat
    var kbdintDevice: Option<string>
    var sessionInfo: seq<Success>
    var phase: Phase

    constructor (table: seq<Cfg>, maxTries: nat)
      ensures this.table == table && this.maxTries == maxTries
      ensures View() == Auth([], false, None, 0, 0, None, [], Going)
    {
      this.table, this.maxTries := table, maxTries;
      authMethods, multi, login, attempt, failures, kbdintDevice := [], false, None, 0, 0, None;
      sessionInfo, phase := [], Going;
    }

    function View(): Auth
      reads this
    {
      Auth(authMethods, multi, login, attempt, failures, kbdintDevice, sessionInfo, phase)
    }

    /** auth2_setup_methods_lists: "any" alone asks for nothing; disabled lists are dropped. */
    method SetupMethodsLists(configured: seq<string>, enabled: set<string>) returns (ok: bool)
      modifies `authMethods, `multi
      ensures multi == (configured != [] && configured != ["any"])
      ensures !multi ==> ok && authMethods == old(authMethods)
      ensures multi ==> authMethods == Kept(table, configured, enabled) && ok == (authMethods != [])
    {
      multi := !(|configured| == 1 && configured[0] == "any") && |configured| != 0;
      assert configured == ["any"] <==> |configured| == 1 && configured[0] == "any";
      if !multi { return true; }
      authMethods := [];
      for i := 0 to |configured|
        invariant multi && authMethods == Kept(table, configured[..i], enabled)
      {
        var valid := MethodsValid(table, configured[i], true, enabled);
        assert configured[..i + 1][..i] == configured[..i];
        if valid { authMethods := authMethods + [configured[i]]; }
      }
      assert configured[..|configured|] == configured;
      ok := |authMethods| != 0;
    }

    /** auth2_method_allowed */
    method MethodAllowed(name: string, sub: Option<string>) returns (r: bool)
      ensures r == Allowed(View(), name, sub)
    {
      if !multi { return true; }
      for i := 0 to |authMethods|
        invariant forall j | 0 <= j < i :: ListStartsWith(authMethods[j], name, sub) == MatchNone
      {
        if ListStartsWith(authMethods[i], name, sub) != MatchNone { return true; }
      }
      return false;
    }

    /** auth2_update_methods_lists: 1 when a list is finished (the later lists are then left as they were), 0 when
        some list got shorter, -1 for the fatal exit. */
    method UpdateMethodsLists(name: string, sub: Option<string>) returns (r: int)
      modifies `authMethods
      ensures match Advance(old(authMethods), Success(name, sub))
              case Done => r == 1 && authMethods == HalfCut(old(authMethods), Success(name, sub))
              case More(lists) => r == 0 && authMethods == lists
              case Broken => r == -1 && authMethods == old(authMethods)
    {
      hide RemoveMethod, HalfCut;
      ghost var was := authMethods;
      ghost var s := Success(name, sub);
      var found := false;
      for i := 0 to |authMethods|
        invariant |authMethods| == |was|
        invariant forall j | 0 <= j < i :: authMethods[j] == Removed(was[j], s)
        invariant forall j | i <= j < |was| :: authMethods[j] == was[j]
        invariant forall j | 0 <= j < i :: RemoveMethod(was[j], name, sub) != Some("")
        invariant found <==> exists j | 0 <= j < i :: RemoveMethod(was[j], name, sub).Some?
      {
        var rest := RemoveMethod(authMethods[i], name, sub);
        if rest.None? { continue; }
        authMethods := authMethods[i := rest.value];
        found := true;
        if rest.value == "" {
          assert RemoveMethod(was[i], name, sub) == Some("");
          HalfCutIs(was, s, i, authMethods);
          return 1;
        }
      }
      r := if found then 0 else -1;
    }

    /** userauth_finish */
    method UserauthFinish(name: string, sub: Option<string>, packetName: string, v: Verdict)
      requires phase == Going
      modifies `authMethods, `failures, `sessionInfo, `phase
      ensures View() == Finish(old(View()), Success(name, sub), packetName, v, maxTries)
    {
      match v {
        case Postponed(_) => return;
        case Accept =>
          if multi {
            var r := UpdateMethodsLists(name, sub);
            if r < 0 {
              phase := Refused;
              return;
            }
            sessionInfo := sessionInfo + [Success(name, sub)];
            if r == 1 {
              phase := Authenticated;
            } else if failures >= maxTries {
              phase := Refused;
            }
          } else {
            sessionInfo := sessionInfo + [Success(name, sub)];
            phase := Authenticated;
          }
        case Reject(serverCaused) =>
          if !serverCaused && (attempt > 1 || packetName != "none") { failures := failures + 1; }
          if failures >= maxTries { phase := Refused; }
      }
    }

    /** authmethod_byname */
    method MethodByName(name: string) returns (r: Option<string>)
      ensures r == ByName(table, name)
    {
      var i := 0;
      while i < |table|
        invariant 0 <= i <= |table|
        invariant ByName(table, name) == ByName(table[i..], name)
      {
        if name == table[i].name || table[i].synonym == Some(name) { return Some(table[i].name); }
        assert table[i..][1..] == table[i + 1..];
        i := i + 1;
      }
      r := None;
    }

    /** The device would put its questions: it is asked only if some list allows it, and then the answer is awaited;
        otherwise the exchange ends, as a failure unless the answers so far were accepted. */
    method Challenge(sub: Option<string>, packetName: string, v: Verdict)
      requires phase == Going
      modifies `authMethods, `failures, `kbdintDevice, `sessionInfo, `phase
      ensures View() == AuthSession.Challenge(old(View()), Success(KBDINT, sub), packetName, v, maxTries)
    {
      hide Finish, Allowed;
      if v.Postponed? && v.device.Some? {
        var allowed := MethodAllowed(KBDINT, v.device);
        if allowed {
          kbdintDevice := v.device;
          return;
        }
      }
      kbdintDevice := None;
      UserauthFinish(KBDINT, sub, packetName, if v.Postponed? then Reject(false) else v);
    }

    /** input_userauth_request, once the lists are set up */
    method InputUserauthRequest(who: Login, name: string, enabled: bool, verdict: Verdict)
      requires phase == Going
      modifies `authMethods, `login, `attempt, `failures, `kbdintDevice, `sessionInfo, `phase
      ensures View() == Step(old(View()), table, maxTries, Request(who, name, enabled, verdict))
    {
      hide Finish, AuthSession.Challenge, Allowed, ByName;
      if attempt >= 1024 || (attempt > 0 && login != Some(who)) {
        phase := Refused;
        return;
      }
      var m := MethodByName(name);
      var allowed := false;
      if m.Some? && enabled { allowed := MethodAllowed(m.value, None); }
      login, attempt, kbdintDevice := Some(who), attempt + 1, None;
      if !allowed || failures >= maxTries {
        UserauthFinish(name, None, name, Reject(false));
      } else if m.value == KBDINT {
        Challenge(None, name, if verdict.Accept? then Reject(false) else verdict);
      } else {
        UserauthFinish(m.value, None, name, verdict);
      }
    }

    /** input_userauth_info_response; the packet has no handler unless questions are open */
    method InputUserauthInfoResponse(verdict: Verdict)
      requires phase == Going
      modifies `authMethods, `failures, `kbdintDevice, `sessionInfo, `phase
      ensures View() == Step(old(View()), table, maxTries, Response(verdict))
    {
      hide AuthSession.Challenge;
      if kbdintDevice.Some? { Challenge(kbdintDevice, KBDINT, verdict); }
    }

    /** The dispatch loop, over whatever the client sends. */
    method Serve(events: seq<Event>)
      modifies `authMethods, `login, `attempt, `failures, `kbdintDevice, `sessionInfo, `phase
      ensures View() == Run(old(View()), table, maxTries, events)
    {
      hide Step;
      ghost var was := View();
      for i := 0 to |events|
        invariant View() == Run(was, table, maxTries, events[..i])
      {
        assert events[..i + 1][..i] == events[..i];
        if phase != Going {
          EndedStays(View(), table, maxTries, events[i]);
          continue;
        }
        match events[i]
        case Request(who, name, enabled, verdict) => InputUserauthRequest(who, name, enabled, verdict);
        case Response(verdict) => InputUserauthInfoResponse(verdict);
      }
      assert events[..|events|] == events;
    }
  }

  /** AuthenticationMethods asks for something. */
  predicate Demanding(configured: seq<string>) { configured != [] && configured != ["any"] }

  /** do_authentication2: a new context serves a client.  With methods configured, the user is let in exactly if the
      successes contain one of the kept lists in order; without a usable list nobody is. */
  method DoAuthentication2(configured: seq<string>, enabled: set<string>, maxTries: nat, events: seq<Event>)
    returns (success: bool, log: seq<Success>)
    requires forall ev | ev in events :: GoodEvent(ev)
    ensures var conf := Kept(TABLE, configured, enabled);
            Demanding(configured) ==>
              && (success <==> exists i | 0 <= i < |conf| :: Satisfied(Parse(conf[i]), log))
              && (conf == [] ==> log == [])
              && (conf != [] ==> log == Run(Begin(conf), TABLE, maxTries, events).log)
    ensures !Demanding(configured) ==> (success <==> log != [])
  {
    hide Run, Satisfied, Kept, Parse, GoodEvent;
    var c := new Authctxt(TABLE, maxTries);
    var ok := c.SetupMethodsLists(configured, enabled);
    if !ok { return false, []; }
    ghost var was := c.View();
    c.Serve(events);
    if Demanding(configured) {
      assert was == Begin(Kept(TABLE, configured, enabled));
      ConfiguredRun(configured, enabled, maxTries, events);
    } else {
      AnyMethod(was, TABLE, maxTries, events);
    }
    return c.phase == Authenticated, c.sessionInfo;
  }

  /** With no lists configured, the first success lets the user in. */
  lemma {:induction false} AnyMethod(a: Auth, table: seq<Cfg>, maxTries: nat, events: seq<Event>)
    requires !a.multi && a.log == [] && a.phase == Going
    ensures var t := Run(a, table, maxTries, events);
            !t.multi && |t.log| <= 1 && (t.phase == Authenticated <==> t.log != [])
  {
    hide Step;
    if events != [] {
      var n := |events| - 1;
      AnyMethod(a, table, maxTries, events[..n]);
      AnyStep(Run(a, table, maxTries, events[..n]), table, maxTries, events[n]);
    }
  }

  lemma AnyStep(a: Auth, table: seq<Cfg>, maxTries: nat, ev: Event)
    requires !a.multi && |a.log| <= 1 && (a.phase == Authenticated <==> a.log != [])
    ensures var t := Step(a, table, maxTries, ev);
            !t.multi && |t.log| <= 1 && (t.phase == Authenticated <==> t.log != [])
  {
  }
}
