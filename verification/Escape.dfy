/** The filter that picks escape commands out of what the user types. */
module Escape {
  import opened Bytes

  /** How a fork would end if this key asks for one. */
  datatype Fork = ForkFails | IsParent | IsChild

  datatype Key = Key(ch: Byte, fork: Fork)

  /** The escape character, and whether the session is multiplexed. */
  datatype Cfg = Cfg(esc: Byte, mux: bool)

  /** A command carried out, or one multiplexed sessions do not have. */
  datatype Note = Did(ch: Byte) | Refused(ch: Byte)

  datatype Filter = Filter(escapePending: bool, lastWasCr: bool, bin: seq<Byte>, notes: seq<Note>)

  /** Why the rest of a buffer is not looked at. */
  datatype Stop = Going | ForceClosed | Quit | Exited | Backgrounded

  predicate IsNewline(ch: Byte) { ch == 13 || ch == 10 }

  /** `.` ^Z `B` `I` `R` `V` `v` `&` `?` `#` `C` */
  predicate IsCommand(ch: Byte) { ch in {46, 26, 66, 73, 82, 86, 118, 38, 63, 35, 67} }

  /** The commands that need a session of their own: ^Z `V` `v` `&` `C` */
  predicate OwnSession(ch: Byte) { ch in {26, 86, 118, 38, 67} }

  function Put(f: Filter, ch: Byte): Filter {
    f.(escapePending := false, lastWasCr := IsNewline(ch), bin := f.bin + [ch])
  }

  function Command(cfg: Cfg, f: Filter, k: Key): (Filter, Stop)
    requires IsCommand(k.ch)
  {
    if cfg.mux && OwnSession(k.ch) then (f.(escapePending := false, notes := f.notes + [Refused(k.ch)]), Going)
    else
      var g := f.(escapePending := false, notes := f.notes + [Did(k.ch)]);
      if k.ch == 46 then (g, if cfg.mux then ForceClosed else Quit)
      else if k.ch == 38 then
        match k.fork
        case ForkFails => (g, Going)
        case IsParent => (g, Exited)
        case IsChild => (g.(bin := g.bin + [4]), Backgrounded)
      else (g, Going)
  }

  function Step(cfg: Cfg, f: Filter, k: Key): (Filter, Stop) {
    if f.escapePending then
      if IsCommand(k.ch) then Command(cfg, f, k)
      else if k.ch != cfg.esc then (Put(f.(bin := f.bin + [cfg.esc]), k.ch), Going)
      else (Put(f, k.ch), Going)
    else if f.lastWasCr && k.ch == cfg.esc then (f.(escapePending := true), Going)
    else (Put(f, k.ch), Going)
  }

  /** One buffer: after a terminating escape the rest of it is dropped. */
  function Process(cfg: Cfg, f: Filter, buf: seq<Key>): (Filter, Stop) {
    if buf == [] then (f, Going)
    else
      var r := Process(cfg, f, buf[..|buf| - 1]);
      if r.1 != Going then r else Step(cfg, r.0, buf[|buf| - 1])
  }

  /** Buffer after buffer. */
  function Session(cfg: Cfg, f: Filter, bufs: seq<seq<Key>>): Filter
    decreases |bufs|
  {
    if bufs == [] then f else Session(cfg, Process(cfg, f, bufs[0]).0, bufs[1..])
  }

  function Join(bufs: seq<seq<Key>>): seq<Key> { if bufs == [] then [] else bufs[0] + Join(bufs[1..]) }

  // ---------- cutting the input ----------

  /** A cut changes nothing unless a terminating escape lies before it, and then the part after it is lost. */
  lemma {:induction false} Split(cfg: Cfg, f: Filter, a: seq<Key>, b: seq<Key>)
    ensures var r := Process(cfg, f, a); Process(cfg, f, a + b) == if r.1 == Going then Process(cfg, r.0, b) else r
    decreases |b|
  {
    hide Step;
    if b == [] {
      assert a + b == a;
    } else {
      var n := |b| - 1;
      Split(cfg, f, a, b[..n]);
      assert (a + b)[..|a + b| - 1] == a + b[..n] && (a + b)[|a + b| - 1] == b[n];
    }
  }

  /** Without terminating escapes, any cutting of the input gives the same output and state. */
  lemma {:induction false} AnyChunking(cfg: Cfg, f: Filter, bufs: seq<seq<Key>>)
    requires Process(cfg, f, Join(bufs)).1 == Going
    ensures Session(cfg, f, bufs) == Process(cfg, f, Join(bufs)).0
    decreases |bufs|
  {
    hide Process;
    if bufs == [] {
      NoKeys(cfg, f);
    } else {
      Split(cfg, f, bufs[0], Join(bufs[1..]));
      AnyChunking(cfg, Process(cfg, f, bufs[0]).0, bufs[1..]);
    }
  }

  lemma NoKeys(cfg: Cfg, f: Filter)
    ensures Process(cfg, f, []) == (f, Going)
  {
  }

  // ---------- escaping and back ----------

  /** Each escape character at the start of a line, typed twice. */
  function Escaped(esc: Byte, cr: bool, x: seq<Byte>): seq<Byte>
    decreases |x|
  {
    if x == [] then []
    else (if cr && x[0] == esc then [esc, esc] else [x[0]]) + Escaped(esc, IsNewline(x[0]), x[1..])
  }

  ghost predicate Typed(buf: seq<Key>, x: seq<Byte>) { |buf| == |x| && forall i | 0 <= i < |x| :: buf[i].ch == x[i] }

  function EndsLine(cr: bool, x: seq<Byte>): bool { if x == [] then cr else IsNewline(x[|x| - 1]) }

  /** The filter turns the escaped text back into the text. */
  lemma {:induction false} Undoes(cfg: Cfg, f: Filter, x: seq<Byte>, buf: seq<Key>)
    requires !IsCommand(cfg.esc) && !f.escapePending && Typed(buf, Escaped(cfg.esc, f.lastWasCr, x))
    ensures Process(cfg, f, buf) == (f.(lastWasCr := EndsLine(f.lastWasCr, x), bin := f.bin + x), Going)
    decreases |x|
  {
    hide Process, IsCommand, IsNewline;
    if x == [] {
      NoKeys(cfg, f);
      assert buf == [] && f.bin + x == f.bin;
    } else {
      var n := if f.lastWasCr && x[0] == cfg.esc then 2 else 1;
      var rest := Escaped(cfg.esc, IsNewline(x[0]), x[1..]);
      assert buf == buf[..n] + buf[n..];
      Split(cfg, f, buf[..n], buf[n..]);
      var g := Put(f, x[0]);
      if n == 2 {
        assert buf[0].ch == cfg.esc && buf[1].ch == cfg.esc;
        Two(cfg, f, buf[0], buf[1]);
        assert buf[..n] == [buf[0], buf[1]];
      } else {
        assert buf[0].ch == x[0];
        One(cfg, f, buf[0]);
        assert buf[..n] == [buf[0]];
      }
      assert Process(cfg, f, buf[..n]) == (g, Going);
      assert Typed(buf[n..], rest) by {
        var e := Escaped(cfg.esc, f.lastWasCr, x);
        assert e[n..] == rest;
        assert forall i | 0 <= i < |rest| :: e[n..][i] == e[n + i] && buf[n..][i] == buf[n + i];
      }
      Undoes(cfg, g, x[1..], buf[n..]);
      assert f.bin + x == g.bin + x[1..];
    }
  }

  lemma One(cfg: Cfg, f: Filter, k: Key)
    ensures Process(cfg, f, [k]) == Step(cfg, f, k)
  {
    hide Step;
    NoKeys(cfg, f);
    assert [k][..0] == [];
  }

  lemma Two(cfg: Cfg, f: Filter, j: Key, k: Key)
    ensures var r := Step(cfg, f, j);
            Process(cfg, f, [j, k]) == if r.1 == Going then Step(cfg, r.0, k) else r
  {
    hide Step;
    One(cfg, f, j);
    assert [j, k][..1] == [j];
  }

  /** In any chunking, the escaped text comes out as the text. */
  lemma UndoesInChunks(cfg: Cfg, f: Filter, x: seq<Byte>, bufs: seq<seq<Key>>)
    requires !IsCommand(cfg.esc) && !f.escapePending && Typed(Join(bufs), Escaped(cfg.esc, f.lastWasCr, x))
    ensures Session(cfg, f, bufs) == f.(lastWasCr := EndsLine(f.lastWasCr, x), bin := f.bin + x)
  {
    Undoes(cfg, f, x, Join(bufs));
    AnyChunking(cfg, f, bufs);
  }

  /** An escape character that is a command letter cannot be typed this way. */
  lemma CommandLetterLost(cfg: Cfg, f: Filter, j: Key, k: Key)
    requires IsCommand(cfg.esc) && !f.escapePending && f.lastWasCr && Typed([j, k], Escaped(cfg.esc, true, [cfg.esc]))
    ensures Process(cfg, f, [j, k]).0.bin != f.bin + [cfg.esc]
  {
    assert Escaped(cfg.esc, true, [cfg.esc]) == [cfg.esc, cfg.esc];
    assert [j, k][0].ch == cfg.esc && [j, k][1].ch == cfg.esc;
    Two(cfg, f, j, k);
    var bin := Process(cfg, f, [j, k]).0.bin;
    assert bin == f.bin || bin == f.bin + [4];
    assert (f.bin + [4])[|f.bin|] == 4 && (f.bin + [cfg.esc])[|f.bin|] == cfg.esc;
  }

  // ---------- the filter object ----------

  datatype Outcome = Ret(n: int) | Gone

  class EscapeFilter {
    var escapePending: bool
    var lastWasCr: bool
    var bin: seq<Byte>
    var notes: seq<Note>

    constructor ()
      ensures View() == Filter(false, true, [], [])
    {
      escapePending, lastWasCr, bin, notes := false, true, [], [];
    }

    function View(): Filter
      reads this
    {
      Filter(escapePending, lastWasCr, bin, notes)
    }

    /** process_escapes */
    method ProcessEscapes(cfg: Cfg, buf: seq<Key>) returns (r: Outcome)
      modifies this
      ensures var p := Process(cfg, old(View()), buf);
              View() == p.0 && r == match p.1 {
                case Going => Ret(|bin| - |old(bin)|)
                case ForceClosed => Ret(0)
                case Quit => Ret(-1)
                case Backgrounded => Ret(-1)
                case Exited => Gone
              }
    {
      hide Process, Step;
      var bytes, i := 0, 0;
      NoKeys(cfg, View());
      while i < |buf|
        invariant 0 <= i <= |buf| && bytes == |bin| - |old(bin)|
        invariant Process(cfg, old(View()), buf[..i]) == (View(), Going)
      {
        var k := buf[i];
        ghost var before := View();
        Next(cfg, old(View()), buf, i);
        if escapePending {
          escapePending := false;
          if IsCommand(k.ch) {
            ghost var s := Command(cfg, before, k);
            assert Step(cfg, before, k) == s by { StepIs(cfg, before, k); }
            if cfg.mux && OwnSession(k.ch) {
              notes := notes + [Refused(k.ch)];
              i := i + 1;
              continue;
            }
            notes := notes + [Did(k.ch)];
            if k.ch == 46 {
              Dropped(cfg, old(View()), buf, i);
              return if cfg.mux then Ret(0) else Ret(-1);
            }
            if k.ch == 38 && k.fork != ForkFails {
              Dropped(cfg, old(View()), buf, i);
              if k.fork == IsParent {
                return Gone;
              }
              bin := bin + [4];
              return Ret(-1);
            }
            i := i + 1;
            continue;
          }
          if k.ch != cfg.esc {
            bin := bin + [cfg.esc];
            bytes := bytes + 1;
          }
        } else if lastWasCr && k.ch == cfg.esc {
          escapePending := true;
          StepIs(cfg, before, k);
          i := i + 1;
          continue;
        }
        lastWasCr := IsNewline(k.ch);
        bin := bin + [k.ch];
        bytes := bytes + 1;
        StepIs(cfg, before, k);
        i := i + 1;
      }
      assert buf[..i] == buf;
      r := Ret(bytes);
    }
  }

  lemma Next(cfg: Cfg, f: Filter, buf: seq<Key>, i: nat)
    requires i < |buf| && Process(cfg, f, buf[..i]).1 == Going
    ensures Process(cfg, f, buf[..i + 1]) == Step(cfg, Process(cfg, f, buf[..i]).0, buf[i])
  {
    hide Step;
    assert buf[..i + 1][..i] == buf[..i];
  }

  lemma StepIs(cfg: Cfg, f: Filter, k: Key)
    ensures Step(cfg, f, k) ==
            if f.escapePending then
              if IsCommand(k.ch) then Command(cfg, f, k)
              else if k.ch != cfg.esc then (Put(f.(bin := f.bin + [cfg.esc]), k.ch), Going)
              else (Put(f, k.ch), Going)
            else if f.lastWasCr && k.ch == cfg.esc then (f.(escapePending := true), Going)
            else (Put(f, k.ch), Going)
  {
  }

  lemma Dropped(cfg: Cfg, f: Filter, buf: seq<Key>, i: nat)
    requires i < |buf| && Process(cfg, f, buf[..i + 1]).1 != Going
    ensures Process(cfg, f, buf) == Process(cfg, f, buf[..i + 1])
  {
    hide Process;
    assert buf == buf[..i + 1] + buf[i + 1..];
    Split(cfg, f, buf[..i + 1], buf[i + 1..]);
  }
}
