/** The command-line parser of xmeans (`parse_args` in src/args.rs): one
    left-to-right pass over the arguments after the program name. The value
    flags take the next token whatever it looks like. Any other token
    becomes the data file path while the path is still empty (an empty
    token leaves it empty). Every error ends the pass at once. */
module Args {
  import opened Utf8
  import opened IntParse

  /** The parse result. A `usize` is a nat here; every parsed count is at
      most `usize::MAX` (OkWellFormed). */
  datatype ParsedArgs = ParsedArgs(k: nat, minK: nat, delim: byte, filePath: string)

  datatype ParseArgsError =
    | Missing(msg: string)
    | Bad(msg: string)
    | ParseIntError(kind: IntErrorKind)

  /** How a call of `parse_args` ends: the `Result` it returns, or the
      index-out-of-bounds panic that `as_bytes()[0]` raises on an empty
      `--delim` value. */
  datatype Outcome = Ok(args: ParsedArgs) | Err(error: ParseArgsError) | IndexPanic

  /** `b','` */
  const COMMA: byte := 44

  const USAGE: string :=
    "Usage: xmeans <data_file_path> [-k <number>] [--mink <number] [--delim <string>]"

  /** The record the parser starts from. */
  function Defaults(): ParsedArgs
  {
    ParsedArgs(0, 2, COMMA, "")
  }

  predicate IsKFlag(arg: string) { arg == "-k" || arg == "--k" }

  predicate IsMinKFlag(arg: string) { arg == "--mink" || arg == "-mink" || arg == "--mk" || arg == "-mk" }

  predicate IsDelimFlag(arg: string) { arg == "--delim" }

  predicate IsValueFlag(arg: string) { IsKFlag(arg) || IsMinKFlag(arg) || IsDelimFlag(arg) }

  /** The text of the Missing error a value flag raises when it is last. */
  function NeedsValue(flag: string): string
    requires IsValueFlag(flag)
  {
    if IsKFlag(flag) then "k needs value"
    else if IsMinKFlag(flag) then "mink needs value"
    else "delim needs value"
  }

  /** Store the number a numeric flag read in the field it names. */
  function Assign(flag: string, fin: ParsedArgs, n: nat): ParsedArgs
    requires IsKFlag(flag) || IsMinKFlag(flag)
  {
    if IsKFlag(flag) then fin.(k := n) else fin.(minK := n)
  }

  /** `str::ends_with`. */
  predicate EndsWith(s: string, suffix: string)
  {
    |suffix| <= |s| && s[|s| - |suffix|..] == suffix
  }

  /** The loop either is still running with its record, or has stopped. */
  datatype Scan = Running(fin: ParsedArgs) | Stopped(outcome: Outcome)

  /** The `while let` loop over the tokens left in the iterator. It only
      ever stops with an error or a panic, never with an Ok. */
  function ScanTokens(toks: seq<string>, fin: ParsedArgs): (r: Scan)
    ensures r.Stopped? ==> !r.outcome.Ok?
    decreases |toks|
  {
    if toks == [] then Running(fin)
    else
      var arg := toks[0];
      if IsKFlag(arg) || IsMinKFlag(arg) then
        if |toks| == 1 then Stopped(Err(Missing(NeedsValue(arg))))
        else match ParseUsize(toks[1])
          case Failure(e) => Stopped(Err(ParseIntError(e)))
          case Value(n) => ScanTokens(toks[2..], Assign(arg, fin, n))
      else if IsDelimFlag(arg) then
        if |toks| == 1 then Stopped(Err(Missing(NeedsValue(arg))))
        else if toks[1] == [] then Stopped(IndexPanic)
        else if ByteLen(toks[1]) != 1 then Stopped(Err(Bad("delim must be a single character")))
        else ScanTokens(toks[2..], fin.(delim := LeadByte(toks[1][0])))
      else if fin.filePath == [] then ScanTokens(toks[1..], fin.(filePath := arg))
      else Stopped(Err(Bad("unknown argument " + arg)))
  }

  /** The two checks on the file path once every token is consumed. */
  function CheckPath(fin: ParsedArgs): Outcome
  {
    if fin.filePath == [] then Err(Missing("file path"))
    else if !EndsWith(fin.filePath, ".csv") then Err(Bad("file (" + fin.filePath + ") is not a csv file"))
    else Ok(fin)
  }

  /** `into_iter().skip(1)`: everything after the program name. */
  function Skip1(args: seq<string>): seq<string>
  {
    if args == [] then [] else args[1..]
  }

  /** What `parse_args` does with the argument list `args`. */
  function ParseSpec(args: seq<string>): Outcome
  {
    match ScanTokens(Skip1(args), Defaults())
    case Stopped(o) => o
    case Running(fin) => CheckPath(fin)
  }

  /** `parse_args`: the loop mutates one record field by field and returns
      at the first error. */
  method ParseArgs(args: seq<string>) returns (r: Outcome)
    ensures r == ParseSpec(args)
  {
    var fin := Defaults();
    var i := if |args| == 0 then 0 else 1;
    while i < |args|
      invariant 0 <= i <= |args|
      invariant ScanTokens(args[i..], fin) == ScanTokens(Skip1(args), Defaults())
      decreases |args| - i
    {
      var arg := args[i];
      assert args[i..][0] == arg;
      i := i + 1;
      if arg == "-k" || arg == "--k" {
        if i == |args| {
          return Err(Missing("k needs value"));
        }
        var next := args[i];
        assert args[i - 1..][1] == next && args[i - 1..][2..] == args[i + 1..];
        i := i + 1;
        var parsed := ParseUsize(next);
        if parsed.Failure? {
          return Err(ParseIntError(parsed.kind));
        }
        fin := fin.(k := parsed.n);
      } else if arg == "--mink" || arg == "-mink" || arg == "--mk" || arg == "-mk" {
        if i == |args| {
          return Err(Missing("mink needs value"));
        }
        var next := args[i];
        assert args[i - 1..][1] == next && args[i - 1..][2..] == args[i + 1..];
        i := i + 1;
        var parsed := ParseUsize(next);
        if parsed.Failure? {
          return Err(ParseIntError(parsed.kind));
        }
        fin := fin.(minK := parsed.n);
      } else if arg == "--delim" {
        if i == |args| {
          return Err(Missing("delim needs value"));
        }
        var next := args[i];
        assert args[i - 1..][1] == next && args[i - 1..][2..] == args[i + 1..];
        i := i + 1;
        if next == [] {
          return IndexPanic;
        }
        fin := fin.(delim := LeadByte(next[0]));
        if ByteLen(next) != 1 {
          return Err(Bad("delim must be a single character"));
        }
      } else {
        assert args[i - 1..][1..] == args[i..];
        if fin.filePath == [] {
          fin := fin.(filePath := arg);
        } else {
          return Err(Bad("unknown argument " + arg));
        }
      }
    }
    if fin.filePath == [] {
      return Err(Missing("file path"));
    }
    if !EndsWith(fin.filePath, ".csv") {
      return Err(Bad("file (" + fin.filePath + ") is not a csv file"));
    }
    return Ok(fin);
  }

  /** `Display for ParseArgsError`. */
  function Display(e: ParseArgsError): string
  {
    match e
    case Missing(msg) => "Missing argument: " + msg + "\n" + USAGE
    case Bad(msg) => "Bad argument: " + msg + "\n" + USAGE
    case ParseIntError(kind) => "Error parsing integer: " + Describe(kind)
  }

  // ---------------------------------------------------------------------
  // Properties of the parser

  /** A command line holding just a `.csv` path parses to the defaults
      with that path. */
  lemma PathOnly(prog: string, path: string)
    requires EndsWith(path, ".csv")
    ensures ParseSpec([prog, path]) == Ok(ParsedArgs(0, 2, COMMA, path))
  {
    assert Skip1([prog, path]) == [path];
    assert [path][1..] == [];
    assert ScanTokens([path], Defaults()) == Running(Defaults().(filePath := path));
  }

  /** Nothing after the program name: the file path is missing. */
  lemma NoArguments(args: seq<string>)
    requires |args| <= 1
    ensures ParseSpec(args) == Err(Missing("file path"))
  {
  }

  /** A stretch of tokens the loop gets through can be run first and the
      rest resumed from its record: the loop reads tokens strictly in order. */
  lemma {:induction false} ScanAppend(pre: seq<string>, suf: seq<string>, fin: ParsedArgs)
    requires ScanTokens(pre, fin).Running?
    ensures ScanTokens(pre + suf, fin) == ScanTokens(suf, ScanTokens(pre, fin).fin)
    decreases |pre|
  {
    if pre == [] {
      assert pre + suf == suf;
    } else {
      var arg := pre[0];
      assert (pre + suf)[0] == arg;
      if IsValueFlag(arg) {
        assert (pre + suf)[1] == pre[1];
        assert (pre + suf)[2..] == pre[2..] + suf;
        if IsKFlag(arg) || IsMinKFlag(arg) {
          ScanAppend(pre[2..], suf, Assign(arg, fin, ParseUsize(pre[1]).n));
        } else {
          ScanAppend(pre[2..], suf, fin.(delim := LeadByte(pre[1][0])));
        }
      } else {
        assert (pre + suf)[1..] == pre[1..] + suf;
        ScanAppend(pre[1..], suf, fin.(filePath := arg));
      }
    }
  }

  /** An error is final: tokens after the offending one are never read.
      (A Missing stop is the one exception, since a value flag at the end
      of a stretch takes its value from whatever follows.) */
  lemma {:induction false} StopIsFinal(pre: seq<string>, suf: seq<string>, fin: ParsedArgs)
    requires ScanTokens(pre, fin).Stopped?
    requires !(ScanTokens(pre, fin).outcome.Err? && ScanTokens(pre, fin).outcome.error.Missing?)
    ensures ScanTokens(pre + suf, fin) == ScanTokens(pre, fin)
    decreases |pre|
  {
    var arg := pre[0];
    assert (pre + suf)[0] == arg;
    if IsValueFlag(arg) {
      assert (pre + suf)[1] == pre[1];
      assert (pre + suf)[2..] == pre[2..] + suf;
      if IsKFlag(arg) || IsMinKFlag(arg) {
        if ParseUsize(pre[1]).Value? {
          StopIsFinal(pre[2..], suf, Assign(arg, fin, ParseUsize(pre[1]).n));
        }
      } else if pre[1] != [] && ByteLen(pre[1]) == 1 {
        StopIsFinal(pre[2..], suf, fin.(delim := LeadByte(pre[1][0])));
      }
    } else if fin.filePath == [] {
      assert (pre + suf)[1..] == pre[1..] + suf;
      StopIsFinal(pre[1..], suf, fin.(filePath := arg));
    }
  }

  /** A value flag in last position is a Missing error naming that flag. */
  lemma TrailingFlag(prog: string, pre: seq<string>, flag: string)
    requires ScanTokens(pre, Defaults()).Running?
    requires IsValueFlag(flag)
    ensures ParseSpec([prog] + pre + [flag]) == Err(Missing(NeedsValue(flag)))
  {
    assert Skip1([prog] + pre + [flag]) == pre + [flag];
    ScanAppend(pre, [flag], Defaults());
  }

  /** The token after -k or --mink (and their aliases) is always its value,
      even when it looks like a flag; it must parse as a `usize`. */
  lemma NumericFlagValue(flag: string, v: string, rest: seq<string>, fin: ParsedArgs)
    requires IsKFlag(flag) || IsMinKFlag(flag)
    ensures ScanTokens([flag, v] + rest, fin) ==
      if ParseUsize(v).Failure? then Stopped(Err(ParseIntError(ParseUsize(v).kind)))
      else ScanTokens(rest, Assign(flag, fin, ParseUsize(v).n))
  {
    assert ([flag, v] + rest)[2..] == rest;
  }

  /** A flag given as a value is not a flag: it fails to parse as a number. */
  lemma FlagAsValue(prog: string, path: string)
    ensures ParseSpec([prog, "-k", "--mink", path]) == Err(ParseIntError(InvalidDigit))
  {
    assert Skip1([prog, "-k", "--mink", path]) == ["-k", "--mink", path];
    assert "--mink"[0] == '-';
  }

  /** When a numeric flag repeats, the last value wins. */
  lemma LastValueWins(f1: string, a: string, f2: string, b: string, rest: seq<string>, fin: ParsedArgs)
    requires (IsKFlag(f1) && IsKFlag(f2)) || (IsMinKFlag(f1) && IsMinKFlag(f2))
    requires ParseUsize(a).Value? && ParseUsize(b).Value?
    ensures ScanTokens([f1, a, f2, b] + rest, fin) == ScanTokens(rest, Assign(f2, fin, ParseUsize(b).n))
  {
    var toks := [f1, a, f2, b] + rest;
    assert toks[2..] == [f2, b] + rest;
    assert ([f2, b] + rest)[2..] == rest;
  }

  /** Tokens with no flag of a kind leave that kind's field as it was. */
  lemma {:induction false} FlagFreeKeeps(toks: seq<string>, fin: ParsedArgs)
    requires ScanTokens(toks, fin).Running?
    ensures (forall i :: 0 <= i < |toks| ==> !IsKFlag(toks[i])) ==>
      ScanTokens(toks, fin).fin.k == fin.k
    ensures (forall i :: 0 <= i < |toks| ==> !IsMinKFlag(toks[i])) ==>
      ScanTokens(toks, fin).fin.minK == fin.minK
    decreases |toks|
  {
    if toks != [] {
      var arg := toks[0];
      if IsKFlag(arg) || IsMinKFlag(arg) {
        FlagFreeKeeps(toks[2..], Assign(arg, fin, ParseUsize(toks[1]).n));
      } else if IsDelimFlag(arg) {
        FlagFreeKeeps(toks[2..], fin.(delim := LeadByte(toks[1][0])));
      } else {
        FlagFreeKeeps(toks[1..], fin.(filePath := arg));
      }
    }
  }

  /** A numeric flag and its value, after any prefix the pass runs through,
      set the field the flag names; no later token of another kind changes
      it, so the last occurrence of a flag is the one stored. */
  lemma RepeatedFlagWins(pre: seq<string>, f: string, b: string, post: seq<string>, fin: ParsedArgs)
    requires ScanTokens(pre, fin).Running?
    requires IsKFlag(f) || IsMinKFlag(f)
    requires ParseUsize(b).Value?
    requires forall i :: 0 <= i < |post| ==>
      !(IsKFlag(f) && IsKFlag(post[i])) && !(IsMinKFlag(f) && IsMinKFlag(post[i]))
    requires ScanTokens(pre + [f, b] + post, fin).Running?
    ensures var r := ScanTokens(pre + [f, b] + post, fin).fin;
      if IsKFlag(f) then r.k == ParseUsize(b).n else r.minK == ParseUsize(b).n
  {
    var mid := ScanTokens(pre, fin).fin;
    assert pre + [f, b] + post == pre + ([f, b] + post);
    ScanAppend(pre, [f, b] + post, fin);
    assert ([f, b] + post)[2..] == post;
    FlagFreeKeeps(post, Assign(f, mid, ParseUsize(b).n));
  }

  /** `--delim v`: an empty v panics; otherwise v must be one byte long,
      which holds exactly for a single ASCII character, and that character
      becomes the delimiter. */
  lemma DelimValue(v: string, rest: seq<string>, fin: ParsedArgs)
    ensures ScanTokens(["--delim", v] + rest, fin) ==
      if v == [] then Stopped(IndexPanic)
      else if !(|v| == 1 && (v[0] as int) < 0x80) then Stopped(Err(Bad("delim must be a single character")))
      else ScanTokens(rest, fin.(delim := v[0] as int as byte))
  {
    assert (["--delim", v] + rest)[2..] == rest;
    SingleByte(v);
  }

  /** The only panic: a `--delim` whose value is the empty string. */
  lemma {:induction false} PanicNeedsEmptyDelim(toks: seq<string>, fin: ParsedArgs)
    requires ScanTokens(toks, fin) == Stopped(IndexPanic)
    ensures exists i :: 0 <= i < |toks| - 1 && IsDelimFlag(toks[i]) && toks[i + 1] == ""
    decreases |toks|
  {
    var arg := toks[0];
    if IsKFlag(arg) || IsMinKFlag(arg) {
      PanicNeedsEmptyDelim(toks[2..], Assign(arg, fin, ParseUsize(toks[1]).n));
      var i :| 0 <= i < |toks[2..]| - 1 && IsDelimFlag(toks[2..][i]) && toks[2..][i + 1] == "";
      assert toks[i + 2] == toks[2..][i] && toks[i + 3] == toks[2..][i + 1];
    } else if IsDelimFlag(arg) {
      if toks[1] != [] {
        PanicNeedsEmptyDelim(toks[2..], fin.(delim := LeadByte(toks[1][0])));
        var i :| 0 <= i < |toks[2..]| - 1 && IsDelimFlag(toks[2..][i]) && toks[2..][i + 1] == "";
        assert toks[i + 2] == toks[2..][i] && toks[i + 3] == toks[2..][i + 1];
      }
    } else {
      PanicNeedsEmptyDelim(toks[1..], fin.(filePath := arg));
      var i :| 0 <= i < |toks[1..]| - 1 && IsDelimFlag(toks[1..][i]) && toks[1..][i + 1] == "";
      assert toks[i + 1] == toks[1..][i] && toks[i + 2] == toks[1..][i + 1];
    }
  }

  /** A token that is not a value flag becomes the file path while the path
      is still empty; one that arrives while the path is set is an unknown
      argument. */
  lemma Positional(arg: string, rest: seq<string>, fin: ParsedArgs)
    requires !IsValueFlag(arg)
    ensures ScanTokens([arg] + rest, fin) ==
      if fin.filePath == [] then ScanTokens(rest, fin.(filePath := arg))
      else Stopped(Err(Bad("unknown argument " + arg)))
  {
    assert ([arg] + rest)[1..] == rest;
  }

  /** An empty first token leaves the path empty, so the next positional
      token is taken as the path instead of being rejected. */
  lemma EmptyTokenIsNoPath(prog: string, path: string)
    requires !IsValueFlag(path)
    ensures ParseSpec([prog, "", path]) == ParseSpec([prog, path])
  {
    assert Skip1([prog, "", path]) == ["", path];
    assert Skip1([prog, path]) == [path];
    assert ["", path][1..] == [path];
    assert [path][1..] == [];
  }

  /** After the loop, an empty path is Missing and a path without the
      `.csv` suffix is Bad; only a `.csv` path is accepted. */
  lemma OkExactly(args: seq<string>)
    ensures ParseSpec(args).Ok? <==>
      ScanTokens(Skip1(args), Defaults()).Running? && EndsWith(ScanTokens(Skip1(args), Defaults()).fin.filePath, ".csv")
    ensures ScanTokens(Skip1(args), Defaults()).Running? ==>
      var path := ScanTokens(Skip1(args), Defaults()).fin.filePath;
      (path == [] ==> ParseSpec(args) == Err(Missing("file path"))) &&
      (path != [] && !EndsWith(path, ".csv") ==> ParseSpec(args) == Err(Bad("file (" + path + ") is not a csv file")))
  {
  }

  /** What the loop can change: counts only to parsed `usize` values, the
      path only to one of the tokens. */
  lemma {:induction false} ScanKeepsShape(toks: seq<string>, fin: ParsedArgs)
    requires fin.k <= USIZE_MAX && fin.minK <= USIZE_MAX
    requires ScanTokens(toks, fin).Running?
    ensures var f := ScanTokens(toks, fin).fin;
      f.k <= USIZE_MAX && f.minK <= USIZE_MAX && (f.filePath == fin.filePath || f.filePath in toks)
    decreases |toks|
  {
    if toks != [] {
      var arg := toks[0];
      if IsKFlag(arg) || IsMinKFlag(arg) {
        ScanKeepsShape(toks[2..], Assign(arg, fin, ParseUsize(toks[1]).n));
        assert forall t :: t in toks[2..] ==> t in toks;
      } else if IsDelimFlag(arg) {
        ScanKeepsShape(toks[2..], fin.(delim := LeadByte(toks[1][0])));
        assert forall t :: t in toks[2..] ==> t in toks;
      } else {
        ScanKeepsShape(toks[1..], fin.(filePath := arg));
        assert forall t :: t in toks[1..] ==> t in toks;
      }
    }
  }

  /** Every Ok result has a `.csv` path taken from the arguments after the
      program name, and counts that fit in a `usize`. */
  lemma OkWellFormed(args: seq<string>)
    requires ParseSpec(args).Ok?
    ensures var a := ParseSpec(args).args;
      |a.filePath| >= 4 && EndsWith(a.filePath, ".csv") && a.filePath in Skip1(args) &&
      a.k <= USIZE_MAX && a.minK <= USIZE_MAX
  {
    ScanKeepsShape(Skip1(args), Defaults());
  }

  /** Missing and Bad messages end in the usage line; integer errors do not. */
  lemma DisplayUsage(e: ParseArgsError)
    ensures EndsWith(Display(e), "\n" + USAGE) <==> !e.ParseIntError?
  {
    var d := Display(e);
    if !e.ParseIntError? {
      assert d[|d| - |"\n" + USAGE|..] == "\n" + USAGE;
    } else {
      assert |d| < |"\n" + USAGE|;
    }
  }

  /** A message framed by a fixed prefix and suffix is determined by the
      framed text. */
  lemma MessageCancels(prefix: string, m1: string, m2: string, sep: string, tail: string)
    requires prefix + m1 + sep + tail == prefix + m2 + sep + tail
    ensures m1 == m2
  {
    var t1, t2 := prefix + m1 + sep + tail, prefix + m2 + sep + tail;
    assert |m1| == |m2|;
    forall i | 0 <= i < |m1| ensures m1[i] == m2[i] {
      assert t1[|prefix| + i] == m1[i];
      assert t2[|prefix| + i] == m2[i];
    }
  }

  /** The first character of a message names its kind. */
  lemma DisplayHead(e: ParseArgsError)
    ensures Display(e)[0] == if e.Missing? then 'M' else if e.Bad? then 'B' else 'E'
  {
  }

  /** Appending to a common prefix is injective. */
  lemma PrefixCancels(prefix: string, a: string, b: string)
    requires prefix + a == prefix + b
    ensures a == b
  {
    assert a == (prefix + a)[|prefix|..];
    assert b == (prefix + b)[|prefix|..];
  }

  /** Different errors never display alike: the message determines the error. */
  lemma DisplayInjective(e1: ParseArgsError, e2: ParseArgsError)
    requires Display(e1) == Display(e2)
    ensures e1 == e2
  {
    DisplayHead(e1);
    DisplayHead(e2);
    if e1.Missing? {
      MessageCancels("Missing argument: ", e1.msg, e2.msg, "\n", USAGE);
    } else if e1.Bad? {
      MessageCancels("Bad argument: ", e1.msg, e2.msg, "\n", USAGE);
    } else {
      PrefixCancels("Error parsing integer: ", Describe(e1.kind), Describe(e2.kind));
      assert Describe(e1.kind)[0] == Describe(e2.kind)[0];
    }
  }
}
