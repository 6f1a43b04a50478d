/**
 User authentication as a run of requests: which method lists remain after each success, and
 when the run as a whole authenticates.
 */
module AuthSession {
  import opened AuthLists

  /** A row of the method table. */
  datatype Cfg = Cfg(name: string, synonym: Option<string>)

  /** A method that succeeded, as recorded in the session information. */
  datatype Success = Success(name: string, sub: Option<string>)

  /** What the method itself finally said, after the check for root logins.  A postponed keyboard-interactive
      exchange names the device that would put the next questions. */
  datatype Verdict = Accept | Reject(serverCaused: bool) | Postponed(device: Option<string>)

  /** The user and the service that a request is for. */
  datatype Login = Login(user: string, service: string)

  datatype Event =
    | Request(who: Login, name: string, enabled: bool, verdict: Verdict)
    | Response(verdict: Verdict)

  datatype Phase = Going | Authenticated | Refused

  /** `pending` is the keyboard-interactive device whose questions are open. */
  datatype Auth = Auth(lists: seq<string>, multi: bool, who: Option<Login>, attempt: nat, failures: nat,
                       pending: Option<string>, log: seq<Success>, phase: Phase)

  const KBDINT := "keyboard-interactive"

  // ---------- one success ----------

  function Removed(list: string, s: Success): string {
    var r := RemoveMethod(list, s.name, s.sub);
    if r.Some? then r.value else list
  }

  datatype Update = Done | More(lists: seq<string>) | Broken

  /** auth2_update_methods_lists as a whole: done when a list is finished, broken when no list
      began with the method, and otherwise every list is cut where it can be. */
  function Advance(lists: seq<string>, s: Success): Update {
    if exists i | 0 <= i < |lists| :: RemoveMethod(lists[i], s.name, s.sub) == Some("") then Done
    else if forall i | 0 <= i < |lists| :: RemoveMethod(lists[i], s.name, s.sub).None? then Broken
    else More(seq(|lists|, i requires 0 <= i < |lists| => Removed(lists[i], s)))
  }

  /** What the loop leaves behind when it stops at the first list that is finished. */
  function HalfCut(lists: seq<string>, s: Success): (r: seq<string>)
    ensures |r| == |lists|
  {
    if lists == [] then []
    else
      [Removed(lists[0], s)]
      + (if RemoveMethod(lists[0], s.name, s.sub) == Some("") then lists[1..] else HalfCut(lists[1..], s))
  }

  predicate Allowed(a: Auth, name: string, sub: Option<string>) {
    !a.multi || exists i | 0 <= i < |a.lists| :: ListStartsWith(a.lists[i], name, sub) != MatchNone
  }

  // ---------- the machine ----------

  function ByName(table: seq<Cfg>, name: string): Option<string> {
    if table == [] then None
    else if table[0].name == name || table[0].synonym == Some(name) then Some(table[0].name)
    else ByName(table[1..], name)
  }

  /** userauth_finish; `s` is what a success counts as, `packetName` the method the client named. */
  function Finish(a: Auth, s: Success, packetName: string, v: Verdict, maxTries: nat): Auth {
    match v
    case Accept =>
      if !a.multi then a.(log := a.log + [s], phase := Authenticated)
      else
        (match Advance(a.lists, s)
         case Done => a.(lists := HalfCut(a.lists, s), log := a.log + [s], phase := Authenticated)
         case Broken => a.(phase := Refused)
         case More(lists) =>
           a.(lists := lists, log := a.log + [s], phase := if a.failures >= maxTries then Refused else Going))
    case Reject(serverCaused) =>
      var failures := if !serverCaused && (a.attempt > 1 || packetName != "none") then a.failures + 1
                      else a.failures;
      a.(failures := failures, phase := if failures >= maxTries then Refused else Going)
    case Postponed(_) => a
  }

  /** The device's questions can be put: some list may begin with keyboard-interactive for that device. */
  predicate Asks(a: Auth, v: Verdict) { v.Postponed? && v.device.Some? && Allowed(a, KBDINT, v.device) }

  /** A keyboard-interactive exchange goes on with a device that is allowed, and otherwise ends. */
  function Challenge(a: Auth, s: Success, packetName: string, v: Verdict, maxTries: nat): Auth {
    if Asks(a, v) then a.(pending := v.device)
    else Finish(a.(pending := None), s, packetName, if v.Postponed? then Reject(false) else v, maxTries)
  }

  /** A request that may be looked at: within the limit, and for the user and service of the first one. */
  predicate Admitted(a: Auth, who: Login) { a.attempt < 1024 && (a.attempt == 0 || a.who == Some(who)) }

  /** input_userauth_request ends any open exchange; keyboard-interactive starts one and never succeeds at once.
      input_userauth_info_response answers the open exchange, and has no handler without one. */
  function Step(a: Auth, table: seq<Cfg>, maxTries: nat, ev: Event): Auth {
    if a.phase != Going then a
    else
      match ev
      case Request(who, name, enabled, verdict) =>
        if !Admitted(a, who) then a.(phase := Refused)
        else
          var b := a.(who := Some(who), attempt := a.attempt + 1, pending := None);
          var m := ByName(table, name);
          if m.Some? && enabled && Allowed(a, m.value, None) && a.failures < maxTries then
            if m.value == KBDINT
            then Challenge(b, Success(KBDINT, None), name, if verdict.Accept? then Reject(false) else verdict, maxTries)
            else Finish(b, Success(m.value, None), name, verdict, maxTries)
          else Finish(b, Success(name, None), name, Reject(false), maxTries)
      case Response(verdict) =>
        if a.pending.None? then a else Challenge(a, Success(KBDINT, a.pending), KBDINT, verdict, maxTries)
  }

  function Run(a: Auth, table: seq<Cfg>, maxTries: nat, events: seq<Event>): Auth {
    if events == [] then a
    else
      var n := |events| - 1;
      Step(Run(a, table, maxTries, events[..n]), table, maxTries, events[n])
  }

  // ---------- what a list asks for, said of the successes alone ----------

  predicate Meets(item: Item, s: Success) { Completes(item, s.name, s.sub) }

  /** `idx` picks one success for every item, in order. */
  predicate InOrder(items: seq<Item>, log: seq<Success>, idx: seq<nat>) {
    && |idx| == |items|
    && (forall j | 0 <= j < |idx| :: idx[j] < |log| && Meets(items[j], log[idx[j]]))
    && (forall j | 0 < j < |idx| :: idx[j - 1] < idx[j])
  }

  /** The configured list is an in-order subsequence of the successes. */
  ghost predicate Satisfied(items: seq<Item>, log: seq<Success>) {
    exists idx :: InOrder(items, log, idx)
  }

  /** The items left when every success takes the front item if it can. */
  function Greedy(items: seq<Item>, log: seq<Success>): seq<Item> {
    if log == [] then items
    else
      var n := |log| - 1;
      var rest := Greedy(items, log[..n]);
      if rest != [] && Meets(rest[0], log[n]) then rest[1..] else rest
  }

  lemma {:induction false} GreedyIsSuffix(items: seq<Item>, log: seq<Success>)
    ensures |Greedy(items, log)| <= |items|
    ensures Greedy(items, log) == items[|items| - |Greedy(items, log)|..]
  {
    if log != [] { GreedyIsSuffix(items, log[..|log| - 1]); }
  }

  /** No choice of successes gets further down a list than the greedy one. */
  lemma {:induction false} GreedyIsBest(items: seq<Item>, log: seq<Success>, j: nat, idx: seq<nat>)
    requires j <= |items| && InOrder(items[..j], log, idx)
    ensures |Greedy(items, log)| <= |items| - j
  {
    hide Meets;
    GreedyIsSuffix(items, log);
    if log != [] && j > 0 {
      var before := log[..|log| - 1];
      GreedyIsSuffix(items, before);
      if idx[j - 1] < |log| - 1 {
        IndicesBelow(items[..j], log, idx);
        GreedyIsBest(items, before, j, idx);
      } else {
        OneFewer(items, log, j, idx);
        GreedyIsBest(items, before, j - 1, idx[..j - 1]);
      }
    }
  }

  /** Without the item that the last success stands for. */
  lemma OneFewer(items: seq<Item>, log: seq<Success>, j: nat, idx: seq<nat>)
    requires 0 < j <= |items| && log != [] && InOrder(items[..j], log, idx) && idx[j - 1] == |log| - 1
    ensures InOrder(items[..j - 1], log[..|log| - 1], idx[..j - 1])
    ensures Meets(items[j - 1], log[|log| - 1])
  {
    hide Meets;
    assert items[..j][..j - 1] == items[..j - 1];
    assert items[..j][j - 1] == items[j - 1];
    IndicesBelow(items[..j - 1], log, idx[..j - 1]);
  }

  /** If the last picked success is not the last one, all of them lie before it. */
  lemma {:induction false} IndicesBelow(items: seq<Item>, log: seq<Success>, idx: seq<nat>)
    requires log != [] && InOrder(items, log, idx)
    requires idx != [] ==> idx[|idx| - 1] < |log| - 1
    ensures InOrder(items, log[..|log| - 1], idx)
  {
    forall j | 0 <= j < |idx| ensures idx[j] < |log| - 1 { Increasing(items, log, idx, j); }
  }

  lemma {:induction false} Increasing(items: seq<Item>, log: seq<Success>, idx: seq<nat>, j: nat)
    requires InOrder(items, log, idx) && j < |idx|
    ensures idx[j] <= idx[|idx| - 1]
    decreases |idx| - j
  {
    if j + 1 < |idx| { Increasing(items, log, idx, j + 1); }
  }

  lemma {:induction false} GreedyIsReal(items: seq<Item>, log: seq<Success>) returns (idx: seq<nat>)
    ensures |Greedy(items, log)| <= |items|
    ensures InOrder(items[..|items| - |Greedy(items, log)|], log, idx)
  {
    if log == [] {
      idx := [];
    } else {
      var n := |log| - 1;
      var rest := Greedy(items, log[..n]);
      GreedyIsSuffix(items, log[..n]);
      idx := GreedyIsReal(items, log[..n]);
      if rest != [] && Meets(rest[0], log[n]) { idx := idx + [n]; }
    }
  }

  /** Cutting from the front decides the subsequence question, both ways. */
  lemma GreedyDecides(items: seq<Item>, log: seq<Success>)
    ensures Greedy(items, log) == [] <==> Satisfied(items, log)
  {
    if Greedy(items, log) == [] {
      var idx := GreedyIsReal(items, log);
      assert items[..|items|] == items;
      assert InOrder(items, log, idx);
    }
    forall idx | InOrder(items, log, idx) ensures Greedy(items, log) == [] {
      assert items[..|items|] == items;
      GreedyIsBest(items, log, |items|, idx);
    }
  }
}
