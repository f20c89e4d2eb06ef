/**
 * The escaping of an argument list into a Windows command line (app/src/util/command.c),
 * and its inverse: the rules of "Parsing C command-line arguments" in Microsoft's
 * documentation of the C language.
 */
module Command {
  import opened Common

  function Backslashes(n: nat): (s: string)
    ensures |s| == n && forall i | 0 <= i < n :: s[i] == '\\'
  {
    seq(n, i => '\\')
  }

  /** The escaped rest of an argument, its closing quote included; n backslashes are pending before it. */
  function Escape(rest: string, n: nat): string {
    if rest == [] then Backslashes(2 * n) + "\""
    else if rest[0] == '\"' then Backslashes(2 * n) + "\\\"" + Escape(rest[1..], 0)
    else if rest[0] == '\\' then Escape(rest[1..], n + 1)
    else Backslashes(n) + [rest[0]] + Escape(rest[1..], 0)
  }

  function Serialize(argv: seq<string>): string {
    if argv == [] then ""
    else if |argv| == 1 then "\"" + Escape(argv[0], 0)
    else "\"" + Escape(argv[0], 0) + " " + Serialize(argv[1..])
  }

  // ---------------------------------------------------------------- the serializer's loops

  /** What remains to be written when `pending` backslashes were counted but not written. */
  lemma EscapeStep(arg: string, i: nat, n: nat)
    requires i < |arg|
    ensures arg[i] == '\"' ==> Escape(arg[i..], n) == Backslashes(2 * n) + "\\\"" + Escape(arg[i + 1..], 0)
    ensures arg[i] == '\\' ==> Escape(arg[i..], n) == Escape(arg[i + 1..], n + 1)
    ensures arg[i] != '\"' && arg[i] != '\\' ==> Escape(arg[i..], n) == Backslashes(n) + [arg[i]] + Escape(arg[i + 1..], 0)
  {
    assert arg[i..][1..] == arg[i + 1..];
  }

  /** Writes `copies` backslashes for each of the n counted ones. */
  method PushBackslashes(buf: string, n: nat, copies: nat) returns (r: string)
    requires copies == 1 || copies == 2
    ensures r == buf + Backslashes(copies * n)
  {
    r := buf;
    var backslashes := n;
    while backslashes > 0
      invariant 0 <= backslashes <= n
      invariant r == buf + Backslashes(copies * (n - backslashes))
    {
      if copies == 2 {
        r := r + ['\\'];
      }
      r := r + ['\\'];
      backslashes := backslashes - 1;
    }
  }

  method SerializeArg(prefix: string, arg: string) returns (buf: string)
    ensures buf == prefix + "\"" + Escape(arg, 0)
  {
    buf := prefix + ['\"'];
    var backslashes := 0;
    ghost var whole := prefix + "\"" + Escape(arg, 0);
    assert arg[0..] == arg;
    var i := 0;
    while i < |arg|
      invariant 0 <= i <= |arg|
      invariant buf + Escape(arg[i..], backslashes) == whole
    {
      EscapeStep(arg, i, backslashes);
      ghost var before := buf;
      match arg[i] {
        case '\"' =>
          buf := PushBackslashes(buf, backslashes, 2);
          buf := buf + ['\\'];
          buf := buf + ['\"'];
          assert buf == before + (Backslashes(2 * backslashes) + "\\\"");
          backslashes := 0;
        case '\\' =>
          backslashes := backslashes + 1;
        case c =>
          buf := PushBackslashes(buf, backslashes, 1);
          buf := buf + [c];
          assert buf == before + (Backslashes(backslashes) + [c]);
          backslashes := 0;
      }
      i := i + 1;
    }
    buf := PushBackslashes(buf, backslashes, 2);
    buf := buf + ['\"'];
  }

  /** sc_command_serialize_windows() */
  method SerializeWindows(argv: seq<string>) returns (buf: string)
    ensures buf == Serialize(argv)
  {
    buf := "";
    var i := 0;
    assert argv[0..] == argv;
    while i < |argv|
      invariant 0 <= i <= |argv|
      invariant buf + Serialize(argv[i..]) == Serialize(argv)
    {
      assert argv[i..][1..] == argv[i + 1..];
      ghost var before := buf;
      buf := SerializeArg(buf, argv[i]);
      if i + 1 < |argv| {
        buf := buf + [' '];
        assert buf == before + ("\"" + Escape(argv[i], 0) + " ");
      } else {
        assert buf == before + ("\"" + Escape(argv[i], 0));
      }
      i := i + 1;
    }
  }

  // ---------------------------------------------------------------- the parser

  predicate IsBlank(c: char) {
    c == ' ' || c == '\t'
  }

  function SkipBlanks(s: string): (r: string)
    ensures |r| <= |s|
    ensures r != "" ==> !IsBlank(r[0])
  {
    if s != "" && IsBlank(s[0]) then SkipBlanks(s[1..]) else s
  }

  /** An argument and what follows it. */
  datatype Token = Token(arg: string, rest: string)

  /**
   * The rest of an argument. `read` is what was read of it, n the number of backslashes
   * just seen. A quote after an even number of backslashes delimits, or stands for
   * itself when it is doubled inside a quoted part; after an odd number it is literal.
   */
  function ParseArg(s: string, quoted: bool, n: nat, read: string): (t: Token)
    ensures |t.rest| <= |s|
    decreases |s|
  {
    if s == "" then Token(read + Backslashes(n), "")
    else if s[0] == '\\' then ParseArg(s[1..], quoted, n + 1, read)
    else if s[0] == '\"' then
      var read' := read + Backslashes(n / 2);
      if n % 2 == 1 then ParseArg(s[1..], quoted, 0, read' + "\"")
      else if quoted && |s| > 1 && s[1] == '\"' then ParseArg(s[2..], quoted, 0, read' + "\"")
      else ParseArg(s[1..], !quoted, 0, read')
    else if !quoted && IsBlank(s[0]) then Token(read + Backslashes(n), s)
    else ParseArg(s[1..], quoted, 0, read + Backslashes(n) + [s[0]])
  }

  function ParseArgs(s: string): seq<string>
    decreases |s|
  {
    var s' := SkipBlanks(s);
    if s' == "" then []
    else
      var t := ParseArg(s', false, 0, "");
      ParseArgProgress(s');
      [t.arg] + ParseArgs(t.rest)
  }

  /** An argument takes at least one character. */
  lemma ParseArgProgress(s: string)
    requires s != "" && !IsBlank(s[0])
    ensures |ParseArg(s, false, 0, "").rest| < |s|
  {
  }

  /** argv[0] is a path: quotes only protect blanks, and backslashes are ordinary characters. */
  function ParseProgram(s: string, quoted: bool, read: string): Token {
    if s == "" then Token(read, "")
    else if s[0] == '\"' then ParseProgram(s[1..], !quoted, read)
    else if !quoted && IsBlank(s[0]) then Token(read, s)
    else ParseProgram(s[1..], quoted, read + [s[0]])
  }

  function ParseCommandLine(s: string): seq<string> {
    var t := ParseProgram(s, false, "");
    [t.arg] + ParseArgs(t.rest)
  }

  // ---------------------------------------------------------------- round trip

  lemma {:induction false} ParseBackslashes(k: nat, s: string, quoted: bool, n: nat, read: string)
    ensures ParseArg(Backslashes(k) + s, quoted, n, read) == ParseArg(s, quoted, n + k, read)
    decreases k
  {
    if k == 0 {
      assert Backslashes(0) + s == s;
    } else {
      assert (Backslashes(k) + s)[1..] == Backslashes(k - 1) + s;
      ParseBackslashes(k - 1, s, quoted, n + 1, read);
    }
  }

  predicate EndsArgument(after: string) {
    after != "" ==> after[0] == ' '
  }

  lemma ParseClosingQuote(n: nat, after: string, read: string)
    requires EndsArgument(after)
    ensures ParseArg(Backslashes(2 * n) + "\"" + after, true, 0, read) == Token(read + Backslashes(n), after)
  {
    var tail := "\"" + after;
    assert Backslashes(2 * n) + "\"" + after == Backslashes(2 * n) + tail;
    ParseBackslashes(2 * n, tail, true, 0, read);
    assert tail[1..] == after;
    assert read + Backslashes(n) + Backslashes(0) == read + Backslashes(n);
  }

  lemma ParseEscapedQuote(n: nat, more: string, read: string)
    ensures ParseArg(Backslashes(2 * n) + "\\\"" + more, true, 0, read)
         == ParseArg(more, true, 0, read + Backslashes(n) + "\"")
  {
    var tail := "\"" + more;
    assert Backslashes(2 * n) + "\\\"" + more == Backslashes(2 * n + 1) + tail;
    ParseBackslashes(2 * n + 1, tail, true, 0, read);
    assert tail[1..] == more;
  }

  lemma ParseOrdinary(n: nat, c: char, more: string, read: string)
    requires c != '\"' && c != '\\'
    ensures ParseArg(Backslashes(n) + [c] + more, true, 0, read)
         == ParseArg(more, true, 0, read + Backslashes(n) + [c])
  {
    var tail := [c] + more;
    assert Backslashes(n) + [c] + more == Backslashes(n) + tail;
    ParseBackslashes(n, tail, true, 0, read);
    assert tail[1..] == more;
  }

  /** Inside the quotes, the parser reads the pending backslashes and then the rest of the argument. */
  lemma {:induction false} ParseOfEscape(rest: string, n: nat, after: string, read: string)
    requires EndsArgument(after)
    ensures ParseArg(Escape(rest, n) + after, true, 0, read) == Token(read + Backslashes(n) + rest, after)
    decreases |rest|
  {
    hide ParseArg;
    if rest == "" {
      ParseClosingQuote(n, after, read);
    } else if rest[0] == '\"' {
      var more := Escape(rest[1..], 0) + after;
      assert Escape(rest, n) + after == Backslashes(2 * n) + "\\\"" + more;
      ParseEscapedQuote(n, more, read);
      ParseOfEscape(rest[1..], 0, after, read + Backslashes(n) + "\"");
      assert read + Backslashes(n) + "\"" + Backslashes(0) + rest[1..] == read + Backslashes(n) + rest;
    } else if rest[0] == '\\' {
      ParseOfEscape(rest[1..], n + 1, after, read);
      assert read + Backslashes(n + 1) + rest[1..] == read + Backslashes(n) + rest;
    } else {
      var more := Escape(rest[1..], 0) + after;
      assert Escape(rest, n) + after == Backslashes(n) + [rest[0]] + more;
      ParseOrdinary(n, rest[0], more, read);
      ParseOfEscape(rest[1..], 0, after, read + Backslashes(n) + [rest[0]]);
      assert read + Backslashes(n) + [rest[0]] + Backslashes(0) + rest[1..] == read + Backslashes(n) + rest;
    }
  }

  lemma ParseOfQuoted(arg: string, after: string)
    requires EndsArgument(after)
    ensures ParseArg("\"" + Escape(arg, 0) + after, false, 0, "") == Token(arg, after)
  {
    var tail := Escape(arg, 0) + after;
    var s := "\"" + Escape(arg, 0) + after;
    assert s[0] == '\"' && s[1..] == tail;
    assert "" + Backslashes(0) == "";
    assert ParseArg(s, false, 0, "") == ParseArg(tail, true, 0, "");
    ParseOfEscape(arg, 0, after, "");
    assert "" + Backslashes(0) + arg == arg;
  }

  /** Every list of arguments is read back, blanks before it being skipped. */
  lemma {:induction false} ArgsRoundTrip(argv: seq<string>)
    ensures ParseArgs(Serialize(argv)) == argv
    ensures argv != [] ==> ParseArgs(" " + Serialize(argv)) == argv
  {
    var s := Serialize(argv);
    if argv != [] {
      hide ParseArg, Escape;
      var after := if |argv| == 1 then "" else " " + Serialize(argv[1..]);
      assert s == "\"" + Escape(argv[0], 0) + after;
      ParseOfQuoted(argv[0], after);
      assert SkipBlanks(s) == s;
      assert (" " + s)[1..] == s;
      assert SkipBlanks(" " + s) == s;
      ArgsRoundTrip(argv[1..]);
      assert argv == [argv[0]] + argv[1..];
    }
  }

  // ---------------------------------------------------------------- argv[0]

  /** The names that survive: no quote, and no backslash at the end. */
  predicate PlainProgram(name: string) {
    '\"' !in name && (name != "" ==> Last(name) != '\\')
  }

  /** The backslashes pending at the end of the argument. */
  function Pending(rest: string, n: nat): nat {
    if rest == "" then n
    else if rest[0] == '\\' then Pending(rest[1..], n + 1)
    else Pending(rest[1..], 0)
  }

  lemma {:induction false} PendingIsZeroIff(rest: string, n: nat)
    ensures Pending(rest, n) == 0 <==> (if rest == "" then n == 0 else Last(rest) != '\\')
    decreases |rest|
  {
    if rest != "" {
      PendingIsZeroIff(rest[1..], if rest[0] == '\\' then n + 1 else 0);
    }
  }

  /** Without a quote, escaping only doubles the backslashes at the end. */
  lemma {:induction false} EscapeWithoutQuote(rest: string, n: nat)
    requires '\"' !in rest
    ensures Escape(rest, n) == Backslashes(n) + rest + Backslashes(Pending(rest, n)) + "\""
    decreases |rest|
  {
    if rest == "" {
      assert Backslashes(2 * n) == Backslashes(n) + "" + Backslashes(n);
    } else if rest[0] == '\\' {
      EscapeWithoutQuote(rest[1..], n + 1);
      assert Backslashes(n + 1) + rest[1..] == Backslashes(n) + rest;
    } else {
      EscapeWithoutQuote(rest[1..], 0);
      var k := Pending(rest[1..], 0);
      assert Backslashes(n) + [rest[0]] + (Backslashes(0) + rest[1..] + Backslashes(k) + "\"")
          == Backslashes(n) + rest + Backslashes(k) + "\"";
    }
  }

  lemma {:induction false} ParseQuotedProgram(name: string, after: string, read: string)
    requires '\"' !in name && EndsArgument(after)
    ensures ParseProgram(name + "\"" + after, true, read) == Token(read + name, after)
    decreases |name|
  {
    var s := name + "\"" + after;
    if name == "" {
      assert s[1..] == after;
      assert read + name == read;
    } else {
      assert s[1..] == name[1..] + "\"" + after;
      ParseQuotedProgram(name[1..], after, read + [name[0]]);
      assert read + [name[0]] + name[1..] == read + name;
    }
  }

  /** No quote is ever part of the name that is read. */
  lemma {:induction false} ProgramHasNoQuote(s: string, quoted: bool, read: string)
    requires '\"' !in read
    ensures '\"' !in ParseProgram(s, quoted, read).arg
    decreases |s|
  {
    if s != "" {
      if s[0] == '\"' {
        ProgramHasNoQuote(s[1..], !quoted, read);
      } else if quoted || !IsBlank(s[0]) {
        ProgramHasNoQuote(s[1..], quoted, read + [s[0]]);
      }
    }
  }

  lemma NoBackslashes(name: string)
    ensures Backslashes(0) + name == name
  {
  }

  lemma ParseOfProgram(name: string, after: string)
    requires '\"' !in name && EndsArgument(after)
    ensures ParseProgram("\"" + Escape(name, 0) + after, false, "") == Token(name + Backslashes(Pending(name, 0)), after)
  {
    hide Escape, Backslashes, Pending, EndsArgument;
    EscapeWithoutQuote(name, 0);
    var read := name + Backslashes(Pending(name, 0));
    var s := "\"" + Escape(name, 0) + after;
    NoBackslashes(name);
    assert s[1..] == read + "\"" + after;
    assert ParseProgram(s, false, "") == ParseProgram(s[1..], true, "");
    hide ParseProgram;
    ParseQuotedProgram(read, after, "");
    assert "" + read == read;
  }

  /**
   * The command line is parsed back into the argument list exactly when the list has a
   * program name without quotes and without a backslash at its end. The other
   * arguments are arbitrary.
   */
  lemma RoundTripIff(argv: seq<string>)
    ensures ParseCommandLine(Serialize(argv)) == argv <==> argv != [] && PlainProgram(argv[0])
  {
    hide ParseArg, Escape, ParseProgram, ParseArgs;
    var parsed := ParseCommandLine(Serialize(argv));
    if argv != [] {
      if '\"' in argv[0] {
        ProgramHasNoQuote(Serialize(argv), false, "");
        assert '\"' !in parsed[0];
      } else {
        var after := if |argv| == 1 then "" else " " + Serialize(argv[1..]);
        assert Serialize(argv) == "\"" + Escape(argv[0], 0) + after;
        ParseOfProgram(argv[0], after);
        PendingIsZeroIff(argv[0], 0);
        ArgsRoundTrip(argv[1..]);
        ParseArgsOfNothing();
        assert parsed == [argv[0] + Backslashes(Pending(argv[0], 0))] + argv[1..];
        if Pending(argv[0], 0) == 0 {
          assert argv[0] + Backslashes(0) == argv[0];
        } else {
          assert |parsed[0]| != |argv[0]|;
        }
      }
    }
  }

  lemma ParseArgsOfNothing()
    ensures ParseArgs("") == []
  {
  }
}
