/**
 * The resume engine of the current tracker: decoding of the tool's output,
 * the copy command, one step of the resume loop, the whole loop, the
 * end-of-run decision, and the tracker object that runs it.
 */
module BaseTracker {
  import opened Wrappers
  import opened Keys
  import opened Paths
  import opened Rclone
  import opened Segments
  import opened Sequences

  // ----- `_bytes_to_str` and `_decode` -----

  datatype Encoding = Utf8 | Ascii

  /** The encodings `_bytes_to_str` tries, in order. */
  const Encodings: seq<Encoding> := [Utf8, Ascii]

  /** What `_bytes_to_str` may be handed: text already, or raw bytes. */
  datatype Message = Text(text: string) | Raw(bytes: seq<byte>)

  /**
   * `_decode(message, encoding)`: the bytes decoded with
   * `errors="backslashreplace"`, or None where decoding raised a UnicodeError.
   * The codecs themselves are not modelled.
   */
  type Decoder = (Encoding, seq<byte>) -> Option<string>

  /** Python truthiness of a `_decode` result: neither None nor the empty string. */
  predicate Truthy(d: Option<string>) {
    d.Some? && d.value != ""
  }

  function HexDigit(n: nat): char
    requires n < 16
  {
    if n < 10 then ('0' as int + n) as char else ('a' as int + n - 10) as char
  }

  function HexValue(c: char): (v: nat)
    ensures v < 16
  {
    if '0' <= c <= '9' then c as int - '0' as int
    else if 'a' <= c <= 'f' then c as int - 'a' as int + 10
    else 0
  }

  /** `bytes.hex()`: two lower-case hexadecimal digits per byte. */
  function Hex(b: seq<byte>): string {
    if b == [] then []
    else [HexDigit(b[0] as nat / 16), HexDigit(b[0] as nat % 16)] + Hex(b[1..])
  }

  /** The hexadecimal form has two lower-case hexadecimal digits per byte. */
  lemma {:induction false} HexShape(b: seq<byte>)
    ensures |Hex(b)| == 2 * |b|
    ensures forall i :: 0 <= i < |Hex(b)| ==> '0' <= Hex(b)[i] <= '9' || 'a' <= Hex(b)[i] <= 'f'
  {
    if b != [] {
      HexShape(b[1..]);
      assert Hex(b) == [HexDigit(b[0] as nat / 16), HexDigit(b[0] as nat % 16)] + Hex(b[1..]);
    }
  }

  /** `bytes.fromhex`, for the digits `Hex` produces. */
  function UnHex(s: string): seq<byte> {
    if |s| < 2 then [] else [(HexValue(s[0]) * 16 + HexValue(s[1])) as byte] + UnHex(s[2..])
  }

  /** Each hexadecimal digit reads back as the value it was made from. */
  lemma HexDigitValue(n: nat)
    requires n < 16
    ensures HexValue(HexDigit(n)) == n
  {
  }

  /** The hexadecimal fallback loses nothing: the bytes can be read back from it. */
  lemma {:induction false} HexRoundTrip(b: seq<byte>)
    ensures UnHex(Hex(b)) == b
  {
    if b != [] {
      var hi, lo := b[0] as nat / 16, b[0] as nat % 16;
      var h := Hex(b);
      assert h == [HexDigit(hi), HexDigit(lo)] + Hex(b[1..]);
      HexDigitValue(hi);
      HexDigitValue(lo);
      assert h[2..] == Hex(b[1..]);
      HexRoundTrip(b[1..]);
      assert hi * 16 + lo == b[0] as nat;
      assert UnHex(h) == [(hi * 16 + lo) as byte] + UnHex(h[2..]);
    }
  }

  /** The loop over the encodings: the first truthy decoding, if any. */
  function FirstDecoding(decode: Decoder, encodings: seq<Encoding>, b: seq<byte>): (r: Option<string>)
    ensures r.Some? ==> r.value != "" && exists i :: (0 <= i < |encodings| && decode(encodings[i], b) == r
                                                       && forall j :: 0 <= j < i ==> !Truthy(decode(encodings[j], b)))
    ensures r.None? ==> forall i :: 0 <= i < |encodings| ==> !Truthy(decode(encodings[i], b))
  {
    if encodings == [] then None
    else if Truthy(decode(encodings[0], b)) then decode(encodings[0], b)
    else
      var r := FirstDecoding(decode, encodings[1..], b);
      if r.Some? then
        var i :| 0 <= i < |encodings[1..]| && decode(encodings[1..][i], b) == r
                 && forall j :: 0 <= j < i ==> !Truthy(decode(encodings[1..][j], b));
        assert forall j :: 0 <= j < i + 1 ==> !Truthy(decode(encodings[j], b));
        r
      else r
  }

  /**
   * `_bytes_to_str`: text is returned as it is; bytes become their UTF-8
   * decoding if that is non-empty, else their ASCII decoding if that is
   * non-empty, else their hexadecimal form, from which they can be recovered.
   */
  function BytesToStr(decode: Decoder, m: Message): (r: string)
    ensures m.Text? ==> r == m.text
    ensures m.Raw? ==> (r == if Truthy(decode(Utf8, m.bytes)) then decode(Utf8, m.bytes).value
                             else if Truthy(decode(Ascii, m.bytes)) then decode(Ascii, m.bytes).value
                             else Hex(m.bytes))
    ensures m.Raw? && r == "" ==> m.bytes == []
  {
    match m
    case Text(s) => s
    case Raw(b) =>
      assert Encodings[0] == Utf8 && Encodings[1] == Ascii;
      match FirstDecoding(decode, Encodings, b)
      case Some(s) => s
      case None => Hex(b)
  }

  /** When neither encoding yields text, the stored text is the bytes in hexadecimal. */
  lemma UndecodableIsHex(decode: Decoder, b: seq<byte>)
    requires !Truthy(decode(Utf8, b)) && !Truthy(decode(Ascii, b))
    ensures UnHex(BytesToStr(decode, Raw(b))) == b
  {
    HexRoundTrip(b);
  }

  // ----- The `destination` property -----

  /** Reading `destination` a second time changes nothing more. */
  lemma DestinationIdempotent(d: string)
    ensures AsDir(AsDir(d)) == AsDir(d)
  {
  }

  // ----- The copy command -----

  /** `f"-{'v' * verbosity}"`. */
  function VerbosityFlag(verbosity: nat): string {
    "-" + seq(verbosity, _ => 'v')
  }

  /**
   * The command of one work item: `rclone copy` from the source prefix
   * plus the path to the destination prefix plus the path, with one
   * `-v...v` argument carrying `verbosity` letters exactly when the
   * verbosity is non-zero.
   */
  function Command(sourcePrefix: string, destPrefix: string, path: string, verbosity: nat): (r: seq<string>)
    ensures |r| == (if verbosity == 0 then 4 else 5)
    ensures r[0] == "rclone" && r[1] == "copy" && r[2] == sourcePrefix + path && r[3] == destPrefix + path
    ensures verbosity != 0 ==> (|r[4]| == verbosity + 1 && r[4][0] == '-'
                                && forall i :: 1 <= i < |r[4]| ==> r[4][i] == 'v')
  {
    var command := ["rclone", "copy", sourcePrefix + path, destPrefix + path];
    if verbosity != 0 then command + [VerbosityFlag(verbosity)] else command
  }

  /** `"'" + arg + "'"`. */
  function Quote(arg: string): string {
    "'" + arg + "'"
  }

  /** `" ".join([Quote(arg) for arg in args])`. */
  function CommandLine(args: seq<string>): (r: string)
    ensures args == [] <==> r == ""
    ensures args != [] ==> r[0] == '\'' && r[|r| - 1] == '\''
  {
    if args == [] then ""
    else if |args| == 1 then Quote(args[0])
    else CommandLine(args[..|args| - 1]) + " " + Quote(args[|args| - 1])
  }

  /** One more argument adds a space and that argument quoted. */
  lemma CommandLineSnoc(args: seq<string>, arg: string)
    requires args != []
    ensures CommandLine(args + [arg]) == CommandLine(args) + " " + Quote(arg)
  {
    assert (args + [arg])[..|args|] == args;
  }

  /**
   * The command lines of two non-empty argument lists, joined by one space,
   * are the command line of both: every argument is quoted and neighbours
   * are separated by a single space.  A lone argument is quoted.
   */
  lemma {:induction false} CommandLineAppend(x: seq<string>, y: seq<string>)
    requires x != [] && y != []
    ensures CommandLine([y[0]]) == Quote(y[0])
    ensures CommandLine(x + y) == CommandLine(x) + " " + CommandLine(y)
    decreases |y|
  {
    var n := |y| - 1;
    var init := y[..n];
    assert y == init + [y[n]];
    if n == 0 {
      CommandLineSnoc(x, y[n]);
    } else {
      var head, mid, q := CommandLine(x) + " ", CommandLine(init), Quote(y[n]);
      CommandLineAppend(x, init);
      assert x + y == (x + init) + [y[n]];
      CommandLineSnoc(x + init, y[n]);
      CommandLineSnoc(init, y[n]);
      assert CommandLine(x + y) == ((head + mid) + " ") + q;
      assert CommandLine(y) == (mid + " ") + q;
      AppendAssociative(head, mid, " ");
      AppendAssociative(head, mid + " ", q);
    }
  }

  // ----- The store -----

  /** One row of `sources`; the optional fields are absent until written. */
  datatype Source = Source(
    path: string,
    done: Option<string>,
    args: Option<seq<string>>,
    commandLine: Option<string>,
    returncode: Option<int>,
    stdout: Option<string>,
    stderr: Option<string>,
    failure: Option<string>)

  /** A row as the fresh store inserts it: its path and nothing else. */
  function NewSource(path: string): Source {
    Source(path, None, None, None, None, None, None, None)
  }

  /** The `_tracker` dictionary: the cursor, the failure count (absent until the first failure) and the rows. */
  datatype State = State(next: nat, failureCount: Option<nat>, sources: map<string, Source>)

  /** `_tracker.get("failure_count", 0)`. */
  function FailureCount(st: State): nat {
    st.failureCount.GetOr(0)
  }

  /**
   * The store a fresh tracker writes: cursor 0, no failure count, and item
   * i, keyed by `str(i)`, holding only the i-th enumerated path.
   */
  function FreshState(paths: seq<string>): (st: State)
    ensures st.next == 0 && st.failureCount == None
    ensures forall i :: 0 <= i < |paths| ==> KeyOf(i) in st.sources && st.sources[KeyOf(i)] == NewSource(paths[i])
    ensures forall key :: key in st.sources ==> exists i :: 0 <= i < |paths| && key == KeyOf(i)
  {
    KeyOfInjective();
    State(0, None, map i | 0 <= i < |paths| :: KeyOf(i) := NewSource(paths[i]))
  }

  // ----- One step of `resume` -----

  /** What the subclass and the command line fix for a run. */
  datatype Config = Config(sourcePrefix: string, destPrefix: string, verbosity: nat, decode: Decoder)

  /** The row of the item at the cursor once its copy has returned. */
  function Completed(s: Source, cfg: Config, outcome: Outcome, now: string): Source {
    match outcome
    case Success(out, err) =>
      var stamped := s.(done := Some(now));
      if cfg.verbosity >= 2 then
        var command := Command(cfg.sourcePrefix, cfg.destPrefix, s.path, cfg.verbosity);
        stamped.(args := Some(command), commandLine := Some(CommandLine(command)), returncode := Some(0),
                 stdout := Some(BytesToStr(cfg.decode, Raw(out))), stderr := Some(BytesToStr(cfg.decode, Raw(err))))
      else stamped
    case Failure(_, err) =>
      s.(failure := Some(BytesToStr(cfg.decode, Raw(err))))
  }

  /**
   * A success and a failure touch different fields.  A success stamps
   * `done`, keeps `failure`, and records the invocation (its arguments, its
   * quoted command line, return code 0 and both decoded streams) only at
   * verbosity 2 or more, changing nothing else below that.  A failure stores
   * the decoded stderr in `failure` and changes nothing else, `done`
   * included.
   */
  lemma CompletedFields(s: Source, cfg: Config, outcome: Outcome, now: string)
    ensures var r := Completed(s, cfg, outcome, now);
      && r.path == s.path
      && (outcome.Success? ==> r.done == Some(now) && r.failure == s.failure)
      && (outcome.Success? && cfg.verbosity >= 2 ==>
            var command := Command(cfg.sourcePrefix, cfg.destPrefix, s.path, cfg.verbosity);
            && r.args == Some(command) && r.commandLine == Some(CommandLine(command)) && r.returncode == Some(0)
            && r.stdout == Some(BytesToStr(cfg.decode, Raw(outcome.stdout)))
            && r.stderr == Some(BytesToStr(cfg.decode, Raw(outcome.stderr))))
      && (outcome.Success? && cfg.verbosity < 2 ==> r == s.(done := Some(now)))
      && (outcome.Failure? ==> r.done == s.done && r == s.(failure := Some(BytesToStr(cfg.decode, Raw(outcome.stderr)))))
  {
  }

  /** How a row changes once its copy has returned, given the outcome and the completion stamp. */
  type Update = (Source, Outcome, string) -> Source

  /** The update `resume` performs under a given configuration. */
  function Recorder(cfg: Config): Update {
    (s: Source, outcome: Outcome, now: string) => Completed(s, cfg, outcome, now)
  }

  /**
   * One iteration of the loop, for the item at the cursor: only that row
   * changes, the cursor moves on by one whatever the outcome, and a failure
   * adds one to the failure count (taking an absent count as 0).
   */
  function Step(st: State, update: Update, outcome: Outcome, now: string): (r: State)
    requires KeyOf(st.next) in st.sources
    ensures r.next == st.next + 1
    ensures r.sources.Keys == st.sources.Keys
    ensures forall key :: key in st.sources && key != KeyOf(st.next) ==> r.sources[key] == st.sources[key]
    ensures r.sources[KeyOf(st.next)] == update(st.sources[KeyOf(st.next)], outcome, now)
    ensures outcome.Success? ==> r.failureCount == st.failureCount
    ensures outcome.Failure? ==> r.failureCount == Some(FailureCount(st) + 1)
  {
    var key := KeyOf(st.next);
    var count := if outcome.Failure? then Some(FailureCount(st) + 1) else st.failureCount;
    State(st.next + 1, count, st.sources[key := update(st.sources[key], outcome, now)])
  }

  // ----- The whole loop -----

  /** Why the loop ended: no row at the cursor, or the interrupt flag. */
  datatype Stop = Exhausted | Interrupted

  /** A run of the loop: the final store, the store as saved after each item, the number of copies, and why it ended. */
  datatype Run = Run(final: State, saved: seq<State>, copies: nat, stop: Stop)

  /**
   * `resume`'s loop from store `st`: while there is a row at the cursor and
   * the interrupt flag is clear, copy it, record the outcome and save.
   */
  function ResumeRun(st: State, update: Update, env: Env): Run
    decreases |Pending(st.sources.Keys, st.next)|
  {
    if KeyOf(st.next) !in st.sources then Run(st, [], 0, Exhausted)
    else if env.interrupted(st.next) then Run(st, [], 0, Interrupted)
    else
      var st' := Step(st, update, env.outcome(st.next), env.clock(st.next));
      PendingShrinks(st.sources.Keys, st.next);
      var rest := ResumeRun(st', update, env);
      Run(rest.final, [st'] + rest.saved, rest.copies + 1, rest.stop)
  }

  /** One turn of the loop, seen from the run it starts. */
  lemma ResumeUnfold(st: State, update: Update, env: Env)
    requires KeyOf(st.next) in st.sources && !env.interrupted(st.next)
    ensures var st' := Step(st, update, env.outcome(st.next), env.clock(st.next));
      var r, rest := ResumeRun(st, update, env), ResumeRun(st', update, env);
      r.final == rest.final && r.saved == [st'] + rest.saved && r.copies == rest.copies + 1 && r.stop == rest.stop
  {
  }

  /**
   * The loop's progress: the cursor ends at its start plus the number of
   * copies, one save follows each copy with the cursor already advanced,
   * the last save is the final store, and the key set never changes.
   */
  lemma {:induction false} ResumeCursor(st: State, update: Update, env: Env)
    ensures var r := ResumeRun(st, update, env);
      && r.final.next == st.next + r.copies
      && r.final.sources.Keys == st.sources.Keys
      && |r.saved| == r.copies
      && (r.copies == 0 ==> r.final == st)
      && (r.copies > 0 ==> r.saved[r.copies - 1] == r.final)
      && (forall i :: 0 <= i < r.copies ==> r.saved[i].next == st.next + i + 1)
    decreases ResumeRun(st, update, env).copies
  {
    var r := ResumeRun(st, update, env);
    if KeyOf(st.next) in st.sources && !env.interrupted(st.next) {
      var st' := Step(st, update, env.outcome(st.next), env.clock(st.next));
      ResumeCursor(st', update, env);
      ResumeUnfold(st, update, env);
      var rest := ResumeRun(st', update, env);
      forall i | 0 < i < r.copies
        ensures r.saved[i].next == st.next + i + 1
      {
        assert r.saved[i] == rest.saved[i - 1];
      }
    }
  }

  /**
   * What the loop checks before each copy: the item at the cursor is
   * present and the interrupt flag is clear, so nothing is copied once the
   * flag has been seen.
   */
  lemma {:induction false} ResumeChecks(st: State, update: Update, env: Env)
    ensures var r := ResumeRun(st, update, env);
      forall id :: st.next <= id < st.next + r.copies ==> KeyOf(id) in st.sources && !env.interrupted(id)
    decreases ResumeRun(st, update, env).copies
  {
    var r := ResumeRun(st, update, env);
    if KeyOf(st.next) in st.sources && !env.interrupted(st.next) {
      var st' := Step(st, update, env.outcome(st.next), env.clock(st.next));
      ResumeChecks(st', update, env);
      ResumeUnfold(st, update, env);
    }
  }

  /** The loop stops exactly at the first missing item, or earlier at the interrupt flag. */
  lemma {:induction false} ResumeStop(st: State, update: Update, env: Env)
    ensures var r := ResumeRun(st, update, env);
      && (r.stop == Exhausted <==> KeyOf(st.next + r.copies) !in st.sources)
      && (r.stop == Interrupted ==> env.interrupted(st.next + r.copies))
    decreases ResumeRun(st, update, env).copies
  {
    var r := ResumeRun(st, update, env);
    if KeyOf(st.next) in st.sources && !env.interrupted(st.next) {
      var st' := Step(st, update, env.outcome(st.next), env.clock(st.next));
      ResumeStop(st', update, env);
      ResumeUnfold(st, update, env);
      var rest := ResumeRun(st', update, env);
      assert st.next + r.copies == st'.next + rest.copies;
    }
  }

  /** At loop exit the failure count has grown by exactly the number of failed copies. */
  lemma {:induction false} ResumeFailureCount(st: State, update: Update, env: Env)
    ensures var r := ResumeRun(st, update, env);
      FailureCount(r.final) == FailureCount(st) + FailuresAmong(env.outcome, st.next, r.copies)
    decreases ResumeRun(st, update, env).copies
  {
    if KeyOf(st.next) in st.sources && !env.interrupted(st.next) {
      var st' := Step(st, update, env.outcome(st.next), env.clock(st.next));
      ResumeFailureCount(st', update, env);
      ResumeUnfold(st, update, env);
    }
  }

  /** The record of an item the loop visited is that item's copy applied to its old record. */
  lemma {:induction false} ResumeVisited(st: State, update: Update, env: Env, id: nat)
    requires st.next <= id < st.next + ResumeRun(st, update, env).copies
    ensures KeyOf(id) in st.sources
    ensures var r := ResumeRun(st, update, env);
      KeyOf(id) in r.final.sources && r.final.sources[KeyOf(id)] == update(st.sources[KeyOf(id)], env.outcome(id), env.clock(id))
    decreases ResumeRun(st, update, env).copies
  {
    assert KeyOf(st.next) in st.sources && !env.interrupted(st.next);
    var st' := Step(st, update, env.outcome(st.next), env.clock(st.next));
    ResumeUnfold(st, update, env);
    KeyOfInjective();
    if id == st.next {
      ResumeUntouched(st', update, env, KeyOf(id));
    } else {
      ResumeVisited(st', update, env, id);
    }
  }

  /**
   * A record under a key the loop did not look up, `str(id)` for an id it
   * did not reach or any other key of the loaded store, keeps its contents.
   */
  lemma {:induction false} ResumeUntouched(st: State, update: Update, env: Env, key: string)
    requires key in st.sources
    requires forall id :: st.next <= id < st.next + ResumeRun(st, update, env).copies ==> key != KeyOf(id)
    ensures var r := ResumeRun(st, update, env);
      key in r.final.sources && r.final.sources[key] == st.sources[key]
    decreases ResumeRun(st, update, env).copies
  {
    if KeyOf(st.next) in st.sources && !env.interrupted(st.next) {
      var st' := Step(st, update, env.outcome(st.next), env.clock(st.next));
      ResumeUnfold(st, update, env);
      assert key != KeyOf(st.next);
      ResumeUntouched(st', update, env, key);
    }
  }

  /**
   * Only the items the loop visited change, and each of them exactly as its
   * own copy's outcome dictates; every other record is as it was.
   */
  lemma ResumeFrame(st: State, update: Update, env: Env)
    ensures var r := ResumeRun(st, update, env);
      forall id :: st.next <= id < st.next + r.copies ==>
        KeyOf(id) in st.sources && KeyOf(id) in r.final.sources
        && r.final.sources[KeyOf(id)] == update(st.sources[KeyOf(id)], env.outcome(id), env.clock(id))
    ensures var r := ResumeRun(st, update, env);
      forall key :: key in st.sources && (forall id :: st.next <= id < st.next + r.copies ==> key != KeyOf(id)) ==>
        key in r.final.sources && r.final.sources[key] == st.sources[key]
  {
    var r := ResumeRun(st, update, env);
    forall id | st.next <= id < st.next + r.copies
      ensures KeyOf(id) in st.sources && KeyOf(id) in r.final.sources
      ensures r.final.sources[KeyOf(id)] == update(st.sources[KeyOf(id)], env.outcome(id), env.clock(id))
    {
      ResumeVisited(st, update, env, id);
    }
    forall key | key in st.sources && (forall id :: st.next <= id < st.next + r.copies ==> key != KeyOf(id))
      ensures key in r.final.sources && r.final.sources[key] == st.sources[key]
    {
      ResumeUntouched(st, update, env, key);
    }
  }

  /** A second run started from where an exhausted run ended copies nothing and changes nothing. */
  lemma ResumeAfterExhausted(st: State, update: Update, env: Env, env': Env)
    requires ResumeRun(st, update, env).stop == Exhausted
    ensures var final := ResumeRun(st, update, env).final;
      ResumeRun(final, update, env').copies == 0 && ResumeRun(final, update, env').final == final
  {
    ResumeCursor(st, update, env);
    ResumeStop(st, update, env);
  }

  // ----- The end of the run -----

  /** What follows the loop: the tracker file is archived, or the failures are reported. */
  datatype EndOfRun = Archive | Report(failureCount: nat, failures: map<string, Source>)

  /** The records whose `failure` is set. */
  function Failed(sources: map<string, Source>): map<string, Source> {
    map key | key in sources && sources[key].failure.Some? :: sources[key]
  }

  /** The `else` clause of the loop: archive when no item is left and nothing failed, otherwise report. */
  function Finish(st: State): EndOfRun {
    if KeyOf(st.next) !in st.sources && FailureCount(st) == 0 then Archive
    else Report(FailureCount(st), Failed(st.sources))
  }

  /**
   * The tracker file is archived exactly when the loop ran out of items and
   * the failure count, before the run plus the run's failed copies, is 0;
   * an interrupted run never archives; a report carries the failure count
   * and exactly the records whose `failure` is set.
   */
  lemma ArchiveIff(st: State, update: Update, env: Env)
    ensures var r := ResumeRun(st, update, env);
      Finish(r.final).Archive? <==> r.stop == Exhausted && FailureCount(st) + FailuresAmong(env.outcome, st.next, r.copies) == 0
    ensures var r := ResumeRun(st, update, env);
      r.stop == Interrupted ==> Finish(r.final).Report?
    ensures var r := ResumeRun(st, update, env);
      Finish(r.final).Report? ==>
        Finish(r.final).failureCount == FailureCount(r.final)
        && forall key :: (&& (key in Finish(r.final).failures <==> key in r.final.sources && r.final.sources[key].failure.Some?)
                         && (key in Finish(r.final).failures ==> Finish(r.final).failures[key] == r.final.sources[key]))
  {
    ResumeCursor(st, update, env);
    ResumeStop(st, update, env);
    ResumeFailureCount(st, update, env);
  }

  /**
   * After a run, an item visited by it carries a failure exactly when its
   * copy failed or it carried one before; the code never clears a failure.
   */
  lemma ResumeFailures(st: State, cfg: Config, env: Env, id: nat)
    requires st.next <= id < st.next + ResumeRun(st, Recorder(cfg), env).copies
    ensures KeyOf(id) in st.sources
    ensures var r := ResumeRun(st, Recorder(cfg), env);
      KeyOf(id) in r.final.sources
      && (r.final.sources[KeyOf(id)].failure.Some? <==> env.outcome(id).Failure? || st.sources[KeyOf(id)].failure.Some?)
      && (r.final.sources[KeyOf(id)].done.Some? <==> env.outcome(id).Success? || st.sources[KeyOf(id)].done.Some?)
  {
    ResumeVisited(st, Recorder(cfg), env, id);
    CompletedFields(st.sources[KeyOf(id)], cfg, env.outcome(id), env.clock(id));
  }

  // ----- `_archive_log` -----

  /** Where `_archive_log` moves the tracker file: `<logdir>/<stamp>-<basename of the file>`. */
  function ArchivePath(logdir: string, stamp: string, filename: string): string {
    Join(logdir, stamp + "-" + Basename(filename))
  }

  /**
   * For a time stamp without separators, the archived file is a direct child
   * of the log directory whose name ends with the tracker file's own name.
   */
  lemma ArchiveInLogdir(logdir: string, stamp: string, filename: string)
    requires '/' !in stamp
    ensures var name := stamp + "-" + Basename(filename);
      IsName(name) && ArchivePath(logdir, stamp, filename) == AsDir(logdir) + name
    ensures Basename(ArchivePath(logdir, stamp, filename)) == stamp + "-" + Basename(filename)
  {
    var name := stamp + "-" + Basename(filename);
    StampedName(stamp, Basename(filename));
    AsDirJoin(logdir, name);
    BasenameOfChild(AsDir(logdir), name);
  }

  /** A stamp and a base name, both without separators, joined by `-` form one entry name. */
  lemma StampedName(stamp: string, base: string)
    requires '/' !in stamp && '/' !in base
    ensures IsName(stamp + "-" + base)
  {
    assert '/' !in stamp + "-";
  }

  // ----- The tracker object -----

  /** Why a tracker could not be set up: the enumeration raised, or the store could not be created. */
  datatype InitError = EnumerationFailed(failure: ListingFailure) | StoreCreationFailed

  /** What a subclass's per-source enumeration yields: the source's work items, or the listing error it raises. */
  type Expander = string -> Result<seq<string>, ListingFailure>

  /**
   * `BaseTracker`: the settings it is constructed with, the `_destination`
   * the getter normalises, and the `_tracker` store, kept as its cursor,
   * failure count and `sources` map.  `saved` records the store as each
   * `_save_to_disk` writes it.
   */
  class Tracker {
    const filename: string
    const topLevelSources: seq<string>
    const remoteName: string
    const logdir: string
    const verbosity: nat
    var destination: string
    var next: nat
    var failureCount: Option<nat>
    var sources: map<string, Source>
    ghost var saved: seq<State>

    /** The `_tracker` dictionary as one value. */
    function Store(): State
      reads this
    {
      State(next, failureCount, sources)
    }

    /** `__init__`, up to the call of `_init_tracker`: the settings are stored and the store is empty. */
    constructor(filename: string, sources: seq<string>, remoteName: string, destination: string, logdir: string, verbosity: nat)
      ensures this.filename == filename && topLevelSources == sources && this.remoteName == remoteName
      ensures this.destination == destination && this.logdir == logdir && this.verbosity == verbosity
      ensures Store() == State(0, None, map[]) && saved == []
    {
      this.filename := filename;
      topLevelSources := sources;
      this.remoteName := remoteName;
      this.destination := destination;
      this.logdir := logdir;
      this.verbosity := verbosity;
      next := 0;
      failureCount := None;
      this.sources := map[];
      saved := [];
    }

    /** The `destination` getter: it appends the missing separator to the stored value and returns it. */
    method Destination() returns (d: string)
      modifies this`destination
      ensures destination == AsDir(old(destination)) && d == destination
      ensures old(destination) <= d && (d == "" || d[|d| - 1] == '/')
    {
      if destination != "" && destination[|destination| - 1] != '/' {
        destination := destination + "/";
      }
      d := destination;
    }

    /**
     * `_populate_sources`: the top-level sources' expansions, extended one
     * after another; the first expansion that raises ends the enumeration
     * with its error.
     */
    method PopulateSources(expand: Expander) returns (r: Result<seq<string>, ListingFailure>)
      ensures r == ExpandAll(topLevelSources, expand)
    {
      var detailed: seq<string> := [];
      var i := 0;
      while i < |topLevelSources|
        invariant 0 <= i <= |topLevelSources|
        invariant ExpandAll(topLevelSources[..i], expand) == Result.Success(detailed)
      {
        var source := topLevelSources[i];
        assert topLevelSources[..i + 1][..i] == topLevelSources[..i];
        match expand(source) {
          case Failure(e) =>
            ExpandAllFailurePersists(topLevelSources, expand, i + 1);
            return Result.Failure(e);
          case Success(segment) =>
            detailed := detailed + segment;
        }
        i := i + 1;
      }
      assert topLevelSources[..i] == topLevelSources;
      return Result.Success(detailed);
    }

    /**
     * `_make_fresh_tracker`: enumerate the work items, then create the store
     * with cursor 0 and item i under key `str(i)`.  An enumeration error or
     * a failure to create the store is reported and leaves the fields as
     * they were.
     */
    method MakeFreshTracker(expand: Expander, createFails: bool) returns (failure: Option<InitError>)
      modifies this
      ensures ExpandAll(topLevelSources, expand).Failure? ==>
        failure == Some(EnumerationFailed(ExpandAll(topLevelSources, expand).error)) && Store() == old(Store())
      ensures ExpandAll(topLevelSources, expand).Success? && createFails ==>
        failure == Some(StoreCreationFailed) && Store() == old(Store())
      ensures ExpandAll(topLevelSources, expand).Success? && !createFails ==>
        failure == None && Store() == FreshState(ExpandAll(topLevelSources, expand).value)
      ensures destination == old(destination) && saved == old(saved)
    {
      var detailed := PopulateSources(expand);
      if detailed.Failure? {
        return Some(EnumerationFailed(detailed.error));
      }
      if createFails {
        return Some(StoreCreationFailed);
      }
      var paths := detailed.value;
      var initial := FreshState(paths);
      next := initial.next;
      failureCount := initial.failureCount;
      sources := initial.sources;
      return None;
    }

    /**
     * `_init_tracker`: an existing tracker file is loaded as it is;
     * otherwise a fresh tracker is made.
     */
    method InitTracker(existing: Option<State>, expand: Expander, createFails: bool) returns (failure: Option<InitError>)
      modifies this
      ensures existing.Some? ==> failure == None && Store() == existing.value
      ensures existing.None? && ExpandAll(topLevelSources, expand).Failure? ==>
        failure == Some(EnumerationFailed(ExpandAll(topLevelSources, expand).error)) && Store() == old(Store())
      ensures existing.None? && ExpandAll(topLevelSources, expand).Success? && createFails ==>
        failure == Some(StoreCreationFailed) && Store() == old(Store())
      ensures existing.None? && ExpandAll(topLevelSources, expand).Success? && !createFails ==>
        failure == None && Store() == FreshState(ExpandAll(topLevelSources, expand).value)
      ensures destination == old(destination) && saved == old(saved)
    {
      if existing.Some? {
        next := existing.value.next;
        failureCount := existing.value.failureCount;
        sources := existing.value.sources;
        failure := None;
      } else {
        failure := MakeFreshTracker(expand, createFails);
      }
    }

    /**
     * One iteration of `resume`'s loop, for the item at the cursor: record
     * the copy's outcome in the item's row, count a failure, advance the
     * cursor and save.
     */
    method CopyNext(record: Source, cfg: Config, outcome: Outcome, now: string)
      requires KeyOf(next) in sources && record == sources[KeyOf(next)]
      requires cfg.verbosity == verbosity
      modifies this
      ensures Store() == Step(old(Store()), Recorder(cfg), outcome, now)
      ensures saved == old(saved) + [Store()] && destination == old(destination)
    {
      var key := KeyOf(next);
      var source := record;
      match outcome {
        case Success(out, err) =>
          source := source.(done := Some(now));
          if verbosity >= 2 {
            var command := Command(cfg.sourcePrefix, cfg.destPrefix, source.path, verbosity);
            source := source.(args := Some(command), commandLine := Some(CommandLine(command)), returncode := Some(0),
                              stdout := Some(BytesToStr(cfg.decode, Raw(out))), stderr := Some(BytesToStr(cfg.decode, Raw(err))));
          }
        case Failure(_, err) =>
          source := source.(failure := Some(BytesToStr(cfg.decode, Raw(err))));
          failureCount := Some(failureCount.GetOr(0) + 1);
      }
      assert source == Recorder(cfg)(record, outcome, now);
      sources := sources[key := source];
      next := next + 1;
      saved := saved + [Store()];
    }

    /**
     * `resume`: copy the items from the cursor on until none is left or the
     * interrupt flag is seen, recording each outcome and saving after each
     * item; then archive the tracker file, returning where it went, or
     * report the failures.  The new store, the saves and the decision are
     * those of `ResumeRun` and `Finish` from the old store.
     */
    method Resume(sourcePrefix: string, destPrefix: string, decode: Decoder, env: Env, stamp: string)
      returns (end: EndOfRun, archivedAs: Option<string>)
      modifies this
      ensures var run := ResumeRun(old(Store()), Recorder(Config(sourcePrefix, destPrefix, verbosity, decode)), env);
        Store() == run.final && saved == old(saved) + run.saved && end == Finish(run.final)
      ensures archivedAs == if end.Archive? then Some(ArchivePath(logdir, stamp, filename)) else None
      ensures destination == old(destination)
    {
      var cfg := Config(sourcePrefix, destPrefix, verbosity, decode);
      ghost var update := Recorder(cfg);
      ghost var run := ResumeRun(Store(), update, env);
      ghost var rest := run;
      var source := if KeyOf(next) in sources then Some(sources[KeyOf(next)]) else None;
      while source.Some? && !env.interrupted(next)
        invariant source == if KeyOf(next) in sources then Some(sources[KeyOf(next)]) else None
        invariant rest == ResumeRun(Store(), update, env)
        invariant rest.final == run.final && rest.stop == run.stop
        invariant saved + rest.saved == old(saved) + run.saved
        invariant destination == old(destination)
        decreases rest.copies
      {
        ghost var before, savedBefore := Store(), saved;
        ResumeUnfold(before, update, env);
        CopyNext(source.value, cfg, env.outcome(next), env.clock(next));
        ghost var after := Store();
        assert after == Step(before, update, env.outcome(before.next), env.clock(before.next));
        ghost var rest' := ResumeRun(after, update, env);
        assert rest.saved == [after] + rest'.saved;
        AppendAssociative(savedBefore, [after], rest'.saved);
        rest := rest';
        source := if KeyOf(next) in sources then Some(sources[KeyOf(next)]) else None;
      }
      if source.None? && failureCount.GetOr(0) == 0 {
        end := Archive;
        archivedAs := Some(ArchivePath(logdir, stamp, filename));
      } else {
        end := Report(failureCount.GetOr(0), Failed(sources));
        archivedAs := None;
      }
    }
  }
}
