/**
 * The option handling of `git interpret-trailers`
 * (builtin/interpret-trailers.c): the placement and conflict policies that
 * `--where`, `--if-exists` and `--if-missing` set, the list of new trailers
 * that each `--trailer` adds to (with a snapshot of those policies), the
 * `--parse` shorthand, and the checks made before any input is read.
 * The trailer engine itself (`trailer_process`) is not part of this model.
 */
module InterpretTrailers {
  import opened Wrappers
  import opened Strbuf

  /** `enum trailer_where`: where a new trailer goes. */
  datatype Where = WhereDefault | WhereEnd | WhereAfter | WhereBefore | WhereStart

  /** `enum trailer_if_exists`: what to do when the key is already present. */
  datatype IfExists =
    | ExistsDefault
    | ExistsAddIfDifferentNeighbor
    | ExistsAddIfDifferent
    | ExistsAdd
    | ExistsReplace
    | ExistsDoNothing

  /** `enum trailer_if_missing`: what to do when the key is absent. */
  datatype IfMissing = MissingDefault | MissingAdd | MissingDoNothing

  /** `struct new_trailer_item`: a `--trailer` argument and the policies in force when it was given. */
  datatype NewTrailerItem = NewTrailerItem(text: CString, where: Where, ifExists: IfExists, ifMissing: IfMissing)

  /** The fields of `struct process_trailer_options` this command sets. */
  datatype ProcessOptions = ProcessOptions(
    inPlace: bool,
    trimEmpty: bool,
    onlyTrailers: bool,
    onlyInput: bool,
    unfold: bool,
    noDivider: bool)

  /** `PROCESS_TRAILER_OPTIONS_INIT`: every flag off. */
  const NoOptions := ProcessOptions(false, false, false, false, false, false)

  /** The options declared with `OPT_BOOL`. */
  datatype Flag = InPlace | TrimEmpty | OnlyTrailers | OnlyInput | Unfold | NoDivider

  /** `--flag` (value true) or `--no-flag` (value false). */
  function SetFlag(o: ProcessOptions, f: Flag, value: bool): ProcessOptions {
    match f
    case InPlace => o.(inPlace := value)
    case TrimEmpty => o.(trimEmpty := value)
    case OnlyTrailers => o.(onlyTrailers := value)
    case OnlyInput => o.(onlyInput := value)
    case Unfold => o.(unfold := value)
    case NoDivider => o.(noDivider := value)
  }

  /**
   * One option on the command line, as `parse_options` hands it to this
   * command. The policy options carry the value their helper parsed
   * (`--no-where` and friends give the DEFAULT value).
   */
  datatype OptionEvent =
    | WhereOpt(w: Where)
    | IfExistsOpt(e: IfExists)
    | IfMissingOpt(m: IfMissing)
    | TrailerOpt(text: CString)
    | NoTrailerOpt
    | ParseOpt
    | BoolOpt(flag: Flag, value: bool)

  /**
   * Everything option parsing updates: the three file-level policy
   * variables, the list of new trailers and the processing options.
   */
  datatype CliState = CliState(
    where: Where,
    ifExists: IfExists,
    ifMissing: IfMissing,
    trailers: seq<NewTrailerItem>,
    opts: ProcessOptions)

  /** Before any option: zero-initialised statics, an empty list, no flags. */
  const Initial := CliState(WhereDefault, ExistsDefault, MissingDefault, [], NoOptions)

  /** The item a `--trailer` adds in state `s`: the text and the current policies. */
  function Snapshot(s: CliState, text: CString): NewTrailerItem {
    NewTrailerItem(text, s.where, s.ifExists, s.ifMissing)
  }

  /**
   * The effect of one option. Only `--trailer` and `--no-trailer` touch the
   * list; `--trailer` keeps every earlier item in place and adds at most one.
   */
  function Step(s: CliState, e: OptionEvent): (r: CliState)
    ensures e != NoTrailerOpt ==> s.trailers <= r.trailers && |r.trailers| <= |s.trailers| + 1
    ensures !e.TrailerOpt? && e != NoTrailerOpt ==> r.trailers == s.trailers
    ensures !e.WhereOpt? ==> r.where == s.where
    ensures !e.IfExistsOpt? ==> r.ifExists == s.ifExists
    ensures !e.IfMissingOpt? ==> r.ifMissing == s.ifMissing
    ensures !e.ParseOpt? && !e.BoolOpt? ==> r.opts == s.opts
  {
    match e
    case WhereOpt(w) => s.(where := w)
    case IfExistsOpt(x) => s.(ifExists := x)
    case IfMissingOpt(m) => s.(ifMissing := m)
    case TrailerOpt(text) => s.(trailers := s.trailers + [Snapshot(s, text)])
    case NoTrailerOpt => s.(trailers := [])
    case ParseOpt => s.(opts := s.opts.(onlyTrailers := true, onlyInput := true, unfold := true))
    case BoolOpt(f, v) => s.(opts := SetFlag(s.opts, f, v))
  }

  /** The state after the options `evs`, in order, starting from `s`. */
  function Run(s: CliState, evs: seq<OptionEvent>): CliState
    decreases |evs|
  {
    if evs == [] then s else Step(Run(s, evs[..|evs| - 1]), evs[|evs| - 1])
  }

  /** The value of the last `--where` in `evs`, or `w0` if there is none. */
  function LastWhere(w0: Where, evs: seq<OptionEvent>): Where
    decreases |evs|
  {
    if evs == [] then w0
    else if evs[|evs| - 1].WhereOpt? then evs[|evs| - 1].w
    else LastWhere(w0, evs[..|evs| - 1])
  }

  /** The value of the last `--if-exists` in `evs`, or `e0` if there is none. */
  function LastIfExists(e0: IfExists, evs: seq<OptionEvent>): IfExists
    decreases |evs|
  {
    if evs == [] then e0
    else if evs[|evs| - 1].IfExistsOpt? then evs[|evs| - 1].e
    else LastIfExists(e0, evs[..|evs| - 1])
  }

  /** The value of the last `--if-missing` in `evs`, or `m0` if there is none. */
  function LastIfMissing(m0: IfMissing, evs: seq<OptionEvent>): IfMissing
    decreases |evs|
  {
    if evs == [] then m0
    else if evs[|evs| - 1].IfMissingOpt? then evs[|evs| - 1].m
    else LastIfMissing(m0, evs[..|evs| - 1])
  }

  /**
   * The items the `--trailer` options in `evs` queue, read from the end:
   * nothing from before the last `--no-trailer`, and each item carrying the
   * policies set by the options that precede it.
   */
  function Queued(w0: Where, e0: IfExists, m0: IfMissing, evs: seq<OptionEvent>): seq<NewTrailerItem>
    decreases |evs|
  {
    if evs == [] then []
    else
      var before := evs[..|evs| - 1];
      match evs[|evs| - 1]
      case NoTrailerOpt => []
      case TrailerOpt(text) =>
        Queued(w0, e0, m0, before)
          + [NewTrailerItem(text, LastWhere(w0, before), LastIfExists(e0, before), LastIfMissing(m0, before))]
      case _ => Queued(w0, e0, m0, before)
  }

  /** Running `a` and then `b` is running `a + b`. */
  lemma {:induction false} RunAppend(s: CliState, a: seq<OptionEvent>, b: seq<OptionEvent>)
    ensures Run(s, a + b) == Run(Run(s, a), b)
    decreases |b|
  {
    if b == [] {
      assert a + b == a;
    } else {
      assert (a + b)[..|a + b| - 1] == a + b[..|b| - 1];
      RunAppend(s, a, b[..|b| - 1]);
    }
  }

  /** After any options, each policy variable holds the value of its last option. */
  lemma {:induction false} RunPolicies(s: CliState, evs: seq<OptionEvent>)
    ensures Run(s, evs).where == LastWhere(s.where, evs)
    ensures Run(s, evs).ifExists == LastIfExists(s.ifExists, evs)
    ensures Run(s, evs).ifMissing == LastIfMissing(s.ifMissing, evs)
    decreases |evs|
  {
    if evs != [] {
      RunPolicies(s, evs[..|evs| - 1]);
    }
  }

  /**
   * A `--trailer` adds exactly one item, at the tail, holding its argument
   * and the values the last `--where`, `--if-exists` and `--if-missing`
   * before it gave (or the starting ones).
   */
  lemma {:induction false} TrailerAppendsSnapshot(s: CliState, evs: seq<OptionEvent>, text: CString)
    ensures Run(s, evs + [TrailerOpt(text)]).trailers
      == Run(s, evs).trailers
         + [NewTrailerItem(text, LastWhere(s.where, evs), LastIfExists(s.ifExists, evs), LastIfMissing(s.ifMissing, evs))]
  {
    assert (evs + [TrailerOpt(text)])[..|evs|] == evs;
    RunPolicies(s, evs);
  }

  /**
   * The list after any options: the starting list unless a `--no-trailer`
   * occurred, followed by the items queued since the last `--no-trailer`,
   * in command-line order, each with the policies in force when it was given.
   */
  lemma {:induction false} RunTrailers(s: CliState, evs: seq<OptionEvent>)
    ensures Run(s, evs).trailers
      == (if NoTrailerOpt in evs then [] else s.trailers) + Queued(s.where, s.ifExists, s.ifMissing, evs)
    decreases |evs|
  {
    if evs != [] {
      var before := evs[..|evs| - 1];
      assert evs == before + [evs[|evs| - 1]];
      assert NoTrailerOpt in evs <==> NoTrailerOpt in before || evs[|evs| - 1] == NoTrailerOpt;
      RunTrailers(s, before);
      RunPolicies(s, before);
    }
  }

  /**
   * Without a `--no-trailer`, items already in the list stay where they are
   * with the policies they were given, whatever policy options follow.
   */
  lemma {:induction false} EarlierItemsKept(s: CliState, evs: seq<OptionEvent>)
    requires NoTrailerOpt !in evs
    ensures s.trailers <= Run(s, evs).trailers
  {
    RunTrailers(s, evs);
  }

  /** Once `--parse` is given, `only_input` stays set unless `--no-only-input` follows. */
  lemma {:induction false} OnlyInputStays(s: CliState, evs: seq<OptionEvent>)
    requires s.opts.onlyInput
    requires BoolOpt(OnlyInput, false) !in evs
    ensures Run(s, evs).opts.onlyInput
    decreases |evs|
  {
    if evs != [] {
      var before, last := evs[..|evs| - 1], evs[|evs| - 1];
      assert evs == before + [last];
      assert BoolOpt(OnlyInput, false) !in before;
      OnlyInputStays(s, before);
      var o := Run(s, before).opts;
      assert last != BoolOpt(OnlyInput, false);
      assert Run(s, evs) == Step(Run(s, before), last);
      match last
      case BoolOpt(f, v) =>
        assert f == OnlyInput ==> v;
        assert SetFlag(o, f, v).onlyInput;
      case _ =>
    }
  }

  /** Why `git interpret-trailers` stops before reading any input. */
  datatype UsageError =
    | TrailerWithOnlyInput   // "--trailer with --only-input does not make sense"
    | NoInputForInPlace      // "no input file given for in-place editing"

  /** Where one run of the trailer engine reads from. */
  datatype Input = FromFile(name: CString) | FromStdin

  /** Where one run of the trailer engine writes to. */
  datatype Output = ToFile(name: CString) | ToStdout

  /** One call of `trailer_process`, with its input and the destination of its output. */
  datatype Job = Job(input: Input, output: Output)

  /** What the command does once options are parsed. */
  datatype Outcome =
    | Rejected(error: UsageError)
    | Accepted(opts: ProcessOptions, trailers: seq<NewTrailerItem>, jobs: seq<Job>)

  /** Each named file is read, and written back if `--in-place`, else copied to standard output. */
  function FileJob(name: CString, inPlace: bool): Job {
    Job(FromFile(name), if inPlace then ToFile(name) else ToStdout)
  }

  /**
   * `cmd_interpret_trailers` after option parsing: the two consistency
   * checks, in order, then one engine run per file argument, or one run from
   * standard input to standard output when there is none.
   */
  function Command(evs: seq<OptionEvent>, files: seq<CString>): (r: Outcome)
    ensures r == Rejected(TrailerWithOnlyInput)
      <==> Run(Initial, evs).opts.onlyInput && Run(Initial, evs).trailers != []
    ensures r == Rejected(NoInputForInPlace)
      <==> !(Run(Initial, evs).opts.onlyInput && Run(Initial, evs).trailers != [])
           && files == [] && Run(Initial, evs).opts.inPlace
    ensures r.Accepted? ==> r.opts == Run(Initial, evs).opts && r.trailers == Run(Initial, evs).trailers
    ensures r.Accepted? && files == [] ==> r.jobs == [Job(FromStdin, ToStdout)]
    ensures r.Accepted? && files != [] ==>
      |r.jobs| == |files| && forall i :: 0 <= i < |files| ==> r.jobs[i] == FileJob(files[i], r.opts.inPlace)
  {
    var st := Run(Initial, evs);
    if st.opts.onlyInput && st.trailers != [] then Rejected(TrailerWithOnlyInput)
    else if files == [] then
      if st.opts.inPlace then Rejected(NoInputForInPlace)
      else Accepted(st.opts, st.trailers, [Job(FromStdin, ToStdout)])
    else Accepted(st.opts, st.trailers, seq(|files|, i requires 0 <= i < |files| => FileJob(files[i], st.opts.inPlace)))
  }

  /**
   * `--parse` together with a `--trailer` that no later `--no-trailer`
   * cancels is rejected, unless `--no-only-input` follows the `--parse`.
   */
  lemma ParseWithTrailerRejected(
    evs: seq<OptionEvent>, files: seq<CString>,
    beforeParse: seq<OptionEvent>, afterParse: seq<OptionEvent>,
    beforeTrailer: seq<OptionEvent>, text: CString, afterTrailer: seq<OptionEvent>)
    requires evs == beforeParse + [ParseOpt] + afterParse
    requires BoolOpt(OnlyInput, false) !in afterParse
    requires evs == beforeTrailer + [TrailerOpt(text)] + afterTrailer
    requires NoTrailerOpt !in afterTrailer
    ensures Command(evs, files) == Rejected(TrailerWithOnlyInput)
  {
    RunAppend(Initial, beforeParse + [ParseOpt], afterParse);
    assert Run(Initial, beforeParse + [ParseOpt]).opts.onlyInput;
    OnlyInputStays(Run(Initial, beforeParse + [ParseOpt]), afterParse);
    RunAppend(Initial, beforeTrailer + [TrailerOpt(text)], afterTrailer);
    var t := Run(Initial, beforeTrailer + [TrailerOpt(text)]);
    assert t.trailers != [];
    EarlierItemsKept(t, afterTrailer);
  }

  /**
   * What option parsing updates in place: the file-level `where`,
   * `if_exists` and `if_missing`, the list `trailers` and the struct `opts`.
   * Each method is one option callback.
   */
  class ParseState {
    var where: Where
    var ifExists: IfExists
    var ifMissing: IfMissing
    var trailers: seq<NewTrailerItem>
    var opts: ProcessOptions

    /** The abstract value of the parsing state. */
    function State(): CliState
      reads this
    {
      CliState(where, ifExists, ifMissing, trailers, opts)
    }

    constructor ()
      ensures State() == Initial
    {
      where, ifExists, ifMissing := WhereDefault, ExistsDefault, MissingDefault;
      trailers := [];
      opts := NoOptions;
    }

    /** `option_parse_where`: store the parsed placement; nothing else changes. */
    method OptionParseWhere(w: Where) returns (rc: int)
      modifies this
      ensures rc == 0
      ensures State() == old(State()).(where := w)
    {
      where := w;
      rc := 0;
    }

    /** `option_parse_if_exists`: store the parsed action; nothing else changes. */
    method OptionParseIfExists(e: IfExists) returns (rc: int)
      modifies this
      ensures rc == 0
      ensures State() == old(State()).(ifExists := e)
    {
      ifExists := e;
      rc := 0;
    }

    /** `option_parse_if_missing`: store the parsed action; nothing else changes. */
    method OptionParseIfMissing(m: IfMissing) returns (rc: int)
      modifies this
      ensures rc == 0
      ensures State() == old(State()).(ifMissing := m)
    {
      ifMissing := m;
      rc := 0;
    }

    /** `new_trailers_clear`: unlink and free every item, front to back. */
    method NewTrailersClear()
      modifies this
      ensures State() == old(State()).(trailers := [])
    {
      while trailers != []
        invariant State() == old(State()).(trailers := trailers)
        decreases |trailers|
      {
        trailers := trailers[1..];
      }
    }

    /**
     * `option_parse_trailer`: `--no-trailer` (unset) empties the list;
     * a missing argument is refused with -1 and changes nothing; otherwise
     * one item with the argument and the current policies goes at the tail.
     */
    method OptionParseTrailer(arg: Option<CString>, unset: bool) returns (rc: int)
      modifies this
      ensures rc == (if !unset && arg.None? then -1 else 0)
      ensures unset ==> State() == old(State()).(trailers := [])
      ensures !unset && arg.None? ==> State() == old(State())
      ensures !unset && arg.Some? ==> State() == Step(old(State()), TrailerOpt(arg.value))
      ensures !unset && arg.Some? ==>
        trailers == old(trailers) + [NewTrailerItem(arg.value, where, ifExists, ifMissing)]
    {
      if unset {
        NewTrailersClear();
        return 0;
      }
      if arg.None? {
        return -1;
      }
      trailers := trailers + [NewTrailerItem(arg.value, where, ifExists, ifMissing)];
      rc := 0;
    }

    /** `parse_opt_parse`: `--parse` sets `only_trailers`, `only_input` and `unfold`, and nothing else. */
    method ParseOptParse() returns (rc: int)
      modifies this
      ensures rc == 0
      ensures State() == old(State()).(opts := old(opts).(onlyTrailers := true, onlyInput := true, unfold := true))
    {
      opts := opts.(onlyTrailers := true);
      opts := opts.(onlyInput := true);
      opts := opts.(unfold := true);
      rc := 0;
    }

    /** An `OPT_BOOL` option: set or clear one flag. */
    method OptBool(f: Flag, value: bool)
      modifies this
      ensures State() == old(State()).(opts := SetFlag(old(opts), f, value))
    {
      opts := SetFlag(opts, f, value);
    }

    /** Hand one option to its callback, as `parse_options` does. */
    method Dispatch(e: OptionEvent)
      modifies this
      ensures State() == Step(old(State()), e)
    {
      var rc;
      match e
      case WhereOpt(w) => rc := OptionParseWhere(w);
      case IfExistsOpt(x) => rc := OptionParseIfExists(x);
      case IfMissingOpt(m) => rc := OptionParseIfMissing(m);
      case TrailerOpt(text) => rc := OptionParseTrailer(Some(text), false);
      case NoTrailerOpt => rc := OptionParseTrailer(None, true);
      case ParseOpt => rc := ParseOptParse();
      case BoolOpt(f, v) => OptBool(f, v);
    }
  }

  /**
   * `cmd_interpret_trailers` up to the engine: feed each option to its
   * callback, make the two checks, then list one engine run per file (or
   * one for standard input), and finally free the list of new trailers.
   */
  method CmdInterpretTrailers(evs: seq<OptionEvent>, files: seq<CString>) returns (r: Outcome)
    ensures r == Command(evs, files)
  {
    var ps := new ParseState();
    for i := 0 to |evs|
      invariant ps.State() == Run(Initial, evs[..i])
    {
      assert evs[..i + 1][..i] == evs[..i];
      ps.Dispatch(evs[i]);
    }
    assert evs[..|evs|] == evs;
    if ps.opts.onlyInput && ps.trailers != [] {
      return Rejected(TrailerWithOnlyInput);
    }
    var jobs: seq<Job>;
    if files != [] {
      jobs := [];
      for i := 0 to |files|
        invariant |jobs| == i
        invariant forall k :: 0 <= k < i ==> jobs[k] == FileJob(files[k], ps.opts.inPlace)
      {
        jobs := jobs + [FileJob(files[i], ps.opts.inPlace)];
      }
    } else {
      if ps.opts.inPlace {
        return Rejected(NoInputForInPlace);
      }
      jobs := [Job(FromStdin, ToStdout)];
    }
    r := Accepted(ps.opts, ps.trailers, jobs);
    ps.NewTrailersClear();
  }
}
