/**
 Building a remote command line, and the POSIX shell reading it back (IEEE Std 1003.1-2017, Shell Command
 Language).
 */
module Shell {
  import opened Basics

  // ---------------------------------------------------------------- the printer

  predicate IsAlnum(c: char) { 'A' <= c <= 'Z' || 'a' <= c <= 'z' || '0' <= c <= '9' }

  predicate IsSafe(c: char) {
    IsAlnum(c) || c in {'_', '.', '/', ':', '=', '@', '%', '^', ',', '+', '-'}
  }

  predicate AllSafe(s: string) { forall i :: 0 <= i < |s| ==> IsSafe(s[i]) }

  /** Every single quote leaves the quotes, appears inside double quotes, and reopens them. */
  function EscapeQuotes(s: string): string {
    if s == [] then []
    else (if s[0] == '\'' then "'\"'\"'" else [s[0]]) + EscapeQuotes(s[1..])
  }

  function ShellQuote(arg: string): string {
    if arg == "" then "''"
    else if AllSafe(arg) then arg
    else "'" + EscapeQuotes(arg) + "'"
  }

  predicate IsName(key: string) {
    && key != []
    && !('0' <= key[0] <= '9')
    && forall i :: 0 <= i < |key| ==> IsAlnum(key[i]) || key[i] == '_'
  }

  function Join(words: seq<string>): string {
    if words == [] then "" else if |words| == 1 then words[0] else words[0] + " " + Join(words[1..])
  }

  function Quoted(args: seq<string>): seq<string> {
    if args == [] then [] else [ShellQuote(args[0])] + Quoted(args[1..])
  }

  function Assignments(env: seq<(string, string)>): seq<string> {
    if env == [] then [] else [env[0].0 + "=" + ShellQuote(env[0].1)] + Assignments(env[1..])
  }

  /** The command line for environment entries with valid names. */
  function CommandLine(args: seq<string>, cwd: string, env: seq<(string, string)>): string {
    var command := Join(Quoted(args));
    var prefixed := if env == [] then command else Join(Assignments(env)) + " " + command;
    if cwd == "" then prefixed else "cd " + ShellQuote(cwd) + " && " + prefixed
  }

  /** _buildExecCommand; the error carries the first name that is not a shell variable name. */
  method BuildExecCommand(args: seq<string>, cwd: string, env: Option<seq<(string, string)>>)
    returns (r: Result<string, string>)
    ensures r.Ok? <==> forall e :: e in env.GetOr([]) ==> IsName(e.0)
    ensures r.Ok? ==> r.value == CommandLine(args, cwd, env.GetOr([]))
    ensures r.Err? ==> !IsName(r.error) && exists i :: 0 <= i < |env.GetOr([])| && env.GetOr([])[i].0 == r.error
                                            && forall j :: 0 <= j < i ==> IsName(env.GetOr([])[j].0)
  {
    hide ShellQuote, Join, IsName;
    var words: seq<string> := [];
    for i := 0 to |args|
      invariant words == Quoted(args[..i])
    {
      words := words + [ShellQuote(args[i])];
      QuotedSnoc(args, i);
    }
    assert args[..|args|] == args;
    var command := Join(words);
    if env.Some? {
      var entries := env.value;
      var assignments: seq<string> := [];
      for i := 0 to |entries|
        invariant assignments == Assignments(entries[..i]) && |assignments| == i
        invariant forall j :: 0 <= j < i ==> IsName(entries[j].0)
      {
        var (key, value) := entries[i];
        if !IsName(key) { assert entries[i] in entries; return Err(key); }
        assignments := assignments + [key + "=" + ShellQuote(value)];
        AssignmentsSnoc(entries, i);
      }
      assert entries[..|entries|] == entries;
      if |assignments| > 0 {
        command := Join(assignments) + " " + command;
      }
    }
    if cwd != "" {
      command := "cd " + ShellQuote(cwd) + " && " + command;
    }
    return Ok(command);
  }

  lemma {:induction false} QuotedSnoc(args: seq<string>, i: nat)
    requires i < |args|
    ensures Quoted(args[..i + 1]) == Quoted(args[..i]) + [ShellQuote(args[i])]
    decreases i
  {
    hide ShellQuote;
    if i > 0 {
      QuotedSnoc(args[1..], i - 1);
      assert args[..i + 1][1..] == args[1..][..i] && args[..i][1..] == args[1..][..i - 1];
    }
  }

  lemma {:induction false} AssignmentsSnoc(env: seq<(string, string)>, i: nat)
    requires i < |env|
    ensures Assignments(env[..i + 1]) == Assignments(env[..i]) + [env[i].0 + "=" + ShellQuote(env[i].1)]
    ensures |Assignments(env[..i + 1])| == |Assignments(env[..i])| + 1
    decreases i
  {
    hide ShellQuote;
    if i > 0 {
      AssignmentsSnoc(env[1..], i - 1);
      assert env[..i + 1][1..] == env[1..][..i] && env[..i][1..] == env[1..][..i - 1];
    }
  }

  // ---------------------------------------------------------------- the printed form

  /** A variable name: a letter or an underscore, then letters, digits and underscores. */
  lemma NameIff(key: string)
    ensures IsName(key) <==>
              && key != ""
              && ('A' <= key[0] <= 'Z' || 'a' <= key[0] <= 'z' || key[0] == '_')
              && forall i :: 1 <= i < |key| ==>
                   'A' <= key[i] <= 'Z' || 'a' <= key[i] <= 'z' || '0' <= key[i] <= '9' || key[i] == '_'
  {
  }

  /** Nothing but letters, digits and these marks needs no quotes. */
  predicate Unquoted(arg: string) {
    arg != "" && forall c :: c in arg ==>
                   'A' <= c <= 'Z' || 'a' <= c <= 'z' || '0' <= c <= '9' || c in "_./:=@%^,+-"
  }

  lemma UnquotedIff(arg: string)
    ensures Unquoted(arg) <==> arg != "" && AllSafe(arg)
  {
    forall c ensures c in "_./:=@%^,+-" <==> c in {'_', '.', '/', ':', '=', '@', '%', '^', ',', '+', '-'} {
      assert "_./:=@%^,+-" == ['_', '.', '/', ':', '=', '@', '%', '^', ',', '+', '-'];
    }
    if Unquoted(arg) {
      forall i | 0 <= i < |arg| ensures IsSafe(arg[i]) { assert arg[i] in arg; }
    }
  }

  /** An argument is printed as it is, or in single quotes with each of its own written `'"'"'`. */
  lemma QuoteForm(arg: string)
    ensures ShellQuote(arg) == if Unquoted(arg) then arg
                               else "'" + Flatten(seq(|arg|, i requires 0 <= i < |arg| =>
                                                    if arg[i] == '\'' then "'\"'\"'" else [arg[i]])) + "'"
  {
    UnquotedIff(arg);
    EscapeForm(arg);
    hide Unquoted, AllSafe;
    if arg == "" { assert "'" + EscapeQuotes(arg) + "'" == "''"; }
  }

  lemma {:induction false} EscapeForm(arg: string)
    ensures EscapeQuotes(arg) == Flatten(seq(|arg|, i requires 0 <= i < |arg| =>
                                           if arg[i] == '\'' then "'\"'\"'" else [arg[i]]))
  {
    if arg != [] {
      var pieces := seq(|arg|, i requires 0 <= i < |arg| => if arg[i] == '\'' then "'\"'\"'" else [arg[i]]);
      var rest := arg[1..];
      EscapeForm(rest);
      assert pieces[1..] == seq(|rest|, i requires 0 <= i < |rest| =>
                                  if rest[i] == '\'' then "'\"'\"'" else [rest[i]]);
    }
  }

  /** Words with a blank in front of each but the first. */
  function Blanked(words: seq<string>): seq<string> {
    seq(|words|, i requires 0 <= i < |words| => if i == 0 then words[0] else " " + words[i])
  }

  lemma {:induction false} BlanksBehind(words: seq<string>)
    ensures Flatten(seq(|words|, i requires 0 <= i < |words| => " " + words[i]))
            == if words == [] then "" else " " + Join(words)
  {
    if words != [] {
      var pieces, rest := seq(|words|, i requires 0 <= i < |words| => " " + words[i]), words[1..];
      BlanksBehind(rest);
      assert pieces[1..] == seq(|rest|, i requires 0 <= i < |rest| => " " + rest[i]);
      if |words| == 1 {
        assert " " + words[0] + "" == " " + words[0];
      } else {
        assert " " + words[0] + (" " + Join(rest)) == " " + (words[0] + " " + Join(rest));
      }
    }
  }

  lemma JoinForm(words: seq<string>)
    ensures Join(words) == Flatten(Blanked(words))
  {
    if words != [] {
      var rest := words[1..];
      BlanksBehind(rest);
      assert Blanked(words)[1..] == seq(|rest|, i requires 0 <= i < |rest| => " " + rest[i]);
      if |words| == 1 {
        assert words[0] + "" == words[0];
      } else {
        assert words[0] + (" " + Join(rest)) == words[0] + " " + Join(rest);
      }
    }
  }

  lemma {:induction false} QuotedAt(args: seq<string>, i: nat)
    requires i < |args|
    ensures |Quoted(args)| == |args| && Quoted(args)[i] == ShellQuote(args[i])
  {
    hide ShellQuote;
    QuotedLength(args);
    if i > 0 { QuotedAt(args[1..], i - 1); }
  }

  lemma {:induction false} AssignmentAt(env: seq<(string, string)>, i: nat)
    requires i < |env|
    ensures |Assignments(env)| == |env| && Assignments(env)[i] == env[i].0 + "=" + ShellQuote(env[i].1)
  {
    hide ShellQuote;
    AssignmentsLength(env);
    if i > 0 { AssignmentAt(env[1..], i - 1); }
  }

  /** The words of the line, in order: one assignment per entry, then the arguments. */
  function LineWords(args: seq<string>, env: seq<(string, string)>): seq<string> {
    seq(|env| + |args|, i requires 0 <= i < |env| + |args| =>
      if i < |env| then env[i].0 + "=" + ShellQuote(env[i].1) else ShellQuote(args[i - |env|]))
  }

  lemma LineWordsAre(args: seq<string>, env: seq<(string, string)>)
    ensures LineWords(args, env) == Assignments(env) + Quoted(args)
    ensures |Assignments(env)| == |env| && |Quoted(args)| == |args|
  {
    var words, built := LineWords(args, env), Assignments(env) + Quoted(args);
    QuotedLength(args);
    AssignmentsLength(env);
    hide ShellQuote, Assignments, Quoted;
    forall i | 0 <= i < |env| + |args| ensures words[i] == built[i] {
      if i < |env| { AssignmentAt(env, i); } else { QuotedAt(args, i - |env|); }
    }
  }

  /** The line is these words with one blank in between, behind a change of directory if there is one. */
  lemma LineForm(args: seq<string>, cwd: string, env: seq<(string, string)>)
    ensures CommandLine(args, cwd, env)
              == (if cwd == "" then "" else "cd " + ShellQuote(cwd) + " && ") + Flatten(Blanked(LineWords(args, env)))
                 + (if env != [] && args == [] then " " else "")
  {
    var words := LineWords(args, env);
    LineWordsAre(args, env);
    hide ShellQuote, Assignments, Quoted, Blanked, Join, Flatten, LineWords;
    JoinForm(words);
    var line := Join(words) + if env != [] && args == [] then " " else "";
    var prefixed := if env == [] then Join(Quoted(args)) else Join(Assignments(env)) + " " + Join(Quoted(args));
    assert prefixed == line by { PrefixedForm(args, env); }
    var directory := if cwd == "" then "" else "cd " + ShellQuote(cwd) + " && ";
    assert CommandLine(args, cwd, env) == directory + prefixed by { assert "" + prefixed == prefixed; }
    assert directory + line == directory + Join(words) + if env != [] && args == [] then " " else "";
  }

  lemma PrefixedForm(args: seq<string>, env: seq<(string, string)>)
    ensures (if env == [] then Join(Quoted(args)) else Join(Assignments(env)) + " " + Join(Quoted(args)))
            == Join(LineWords(args, env)) + if env != [] && args == [] then " " else ""
  {
    LineWordsAre(args, env);
    NothingJoined();
    hide ShellQuote, Assignments, Quoted, Join, LineWords;
    if env == [] {
      assert Assignments(env) + Quoted(args) == Quoted(args);
      assert Join(Quoted(args)) + "" == Join(Quoted(args));
    } else if args == [] {
      assert Assignments(env) + Quoted(args) == Assignments(env);
      assert Join(Assignments(env)) + " " + "" == Join(Assignments(env)) + " ";
    } else {
      JoinConcat(Assignments(env), Quoted(args));
      assert Join(LineWords(args, env)) + "" == Join(LineWords(args, env));
    }
  }

  lemma NothingJoined()
    ensures Join([]) == ""
  {
  }

  lemma {:induction false} JoinConcat(a: seq<string>, b: seq<string>)
    requires a != [] && b != []
    ensures Join(a + b) == Join(a) + " " + Join(b)
  {
    assert (a + b)[1..] == a[1..] + b;
    if |a| > 1 {
      JoinConcat(a[1..], b);
      assert a[0] + " " + (Join(a[1..]) + " " + Join(b)) == a[0] + " " + Join(a[1..]) + " " + Join(b);
    } else {
      assert a[1..] + b == b;
    }
  }

  // ---------------------------------------------------------------- the shell

  datatype Token = Word(text: string) | Operator(op: string) | Newline

  /** Unquoted, inside single quotes, inside double quotes (section 2.2). */
  datatype Quoting = Plain | Single | Double

  /** Characters whose unquoted appearance makes the shell expand or substitute something. */
  predicate Expands(c: char) { c in {'$', '`', '*', '?', '[', '~'} }

  predicate StartsOperator(c: char) { c in {'&', '|', ';', '<', '>', '(', ')'} }

  /** Section 2.3, rules 2 and 3: the longest operator at the front of `s`. */
  function OperatorLen(s: string): (n: nat)
    requires s != [] && StartsOperator(s[0])
    ensures 1 <= n <= |s| && n <= 3
  {
    if |s| >= 3 && s[..3] == "<<-" then 3
    else if |s| >= 2 && s[..2] in {"&&", "||", ";;", "<<", ">>", "<&", ">&", "<>", ">|"} then 2
    else 1
  }

  function EndWord(word: Option<string>): seq<Token> {
    match word case None => [] case Some(w) => [Word(w)]
  }

  function Prepend(front: seq<Token>, rest: Option<seq<Token>>): Option<seq<Token>> {
    match rest case None => None case Some(tokens) => Some(front + tokens)
  }

  function SkipComment(s: string): (rest: string)
    ensures |rest| <= |s|
  {
    if s == [] || s[0] == '\n' then s else SkipComment(s[1..])
  }

  /**
   Token recognition with quote removal.  `word` is the word being delimited, if one has begun.  `None`
   means that a quote is left open, or that the shell would first expand something.
   */
  function Tokens(quoting: Quoting, word: Option<string>, s: string): Option<seq<Token>>
    decreases |s|
  {
    if s == [] then (if quoting.Plain? then Some(EndWord(word)) else None) else
    var c := s[0];
    var sofar := word.GetOr("");
    match quoting
    case Single =>
      if c == '\'' then Tokens(Plain, Some(sofar), s[1..]) else Tokens(Single, Some(sofar + [c]), s[1..])
    case Double =>
      if c == '"' then Tokens(Plain, Some(sofar), s[1..])
      else if c == '$' || c == '`' then None
      else if c == '\\' && |s| >= 2 && s[1] == '\n' then Tokens(Double, Some(sofar), s[2..])
      else if c == '\\' && |s| >= 2 && s[1] in {'$', '`', '"', '\\'} then Tokens(Double, Some(sofar + [s[1]]), s[2..])
      else Tokens(Double, Some(sofar + [c]), s[1..])
    case Plain =>
      if c == '\'' then Tokens(Single, Some(sofar), s[1..])
      else if c == '"' then Tokens(Double, Some(sofar), s[1..])
      else if c == '\\' then
        if |s| == 1 then None
        else if s[1] == '\n' then Tokens(Plain, word, s[2..])
        else Tokens(Plain, Some(sofar + [s[1]]), s[2..])
      else if Expands(c) then None
      else if c == '\n' then Prepend(EndWord(word) + [Newline], Tokens(Plain, None, s[1..]))
      else if StartsOperator(c) then
        Prepend(EndWord(word) + [Operator(s[..OperatorLen(s)])], Tokens(Plain, None, s[OperatorLen(s)..]))
      else if c == ' ' || c == '\t' then Prepend(EndWord(word), Tokens(Plain, None, s[1..]))
      else if c == '#' && word.None? then Tokens(Plain, None, SkipComment(s))
      else Tokens(Plain, Some(sofar + [c]), s[1..])
  }

  // ---------------------------------------------------------------- the round trip

  lemma TakeSafe(word: Option<string>, c: char, rest: string)
    requires IsSafe(c)
    ensures Tokens(Plain, word, [c] + rest) == Tokens(Plain, Some(word.GetOr("") + [c]), rest)
  {
    assert ([c] + rest)[1..] == rest;
  }

  lemma TakeQuoted(w: string, c: char, rest: string)
    requires c != '\''
    ensures Tokens(Single, Some(w), [c] + rest) == Tokens(Single, Some(w + [c]), rest)
  {
    assert ([c] + rest)[1..] == rest;
  }

  lemma OpenSingle(word: Option<string>, rest: string)
    ensures Tokens(Plain, word, "'" + rest) == Tokens(Single, Some(word.GetOr("")), rest)
  {
    assert ("'" + rest)[1..] == rest;
  }

  lemma CloseSingle(w: string, rest: string)
    ensures Tokens(Single, Some(w), "'" + rest) == Tokens(Plain, Some(w), rest)
  {
    assert ("'" + rest)[1..] == rest;
  }

  lemma QuoteInDoubleQuotes(w: string, rest: string)
    ensures Tokens(Plain, Some(w), "\"'\"" + rest) == Tokens(Plain, Some(w + "'"), rest)
  {
    assert ("\"'\"" + rest)[1..] == "'\"" + rest;
    assert ("'\"" + rest)[1..] == "\"" + rest;
    assert ("\"" + rest)[1..] == rest;
    assert Tokens(Plain, Some(w), "\"'\"" + rest) == Tokens(Double, Some(w), "'\"" + rest);
    assert Tokens(Double, Some(w), "'\"" + rest) == Tokens(Double, Some(w + "'"), "\"" + rest);
  }

  lemma {:induction false} SafeIsLiteral(word: Option<string>, s: string, rest: string)
    requires AllSafe(s)
    ensures Tokens(Plain, word, s + rest) == if s == [] then Tokens(Plain, word, rest)
        else Tokens(Plain, Some(word.GetOr("") + s), rest)
    decreases |s|
  {
    hide Tokens;
    if s == [] {
      assert s + rest == rest;
    } else {
      assert s + rest == [s[0]] + (s[1..] + rest);
      TakeSafe(word, s[0], s[1..] + rest);
      SafeIsLiteral(Some(word.GetOr("") + [s[0]]), s[1..], rest);
      assert word.GetOr("") + [s[0]] + s[1..] == word.GetOr("") + s;
      if s[1..] == [] { assert word.GetOr("") + [s[0]] == word.GetOr("") + s; }
    }
  }

  /** Inside single quotes an escaped string reads as itself. */
  lemma {:induction false} EscapedIsLiteral(w: string, s: string, rest: string)
    ensures Tokens(Single, Some(w), EscapeQuotes(s) + rest) == Tokens(Single, Some(w + s), rest)
    decreases |s|
  {
    hide Tokens;
    if s == [] {
      assert EscapeQuotes(s) + rest == rest && w + s == w;
    } else {
      var after := EscapeQuotes(s[1..]) + rest;
      EscapedIsLiteral(w + [s[0]], s[1..], rest);
      assert w + [s[0]] + s[1..] == w + s;
      if s[0] == '\'' {
        assert EscapeQuotes(s) + rest == "'\"'\"'" + after;
        QuoteInQuotes(w, after);
      } else {
        assert EscapeQuotes(s) + rest == [s[0]] + after;
        TakeQuoted(w, s[0], after);
      }
    }
  }

  /** Close the quotes, a double-quoted single quote, open them again. */
  lemma QuoteInQuotes(w: string, after: string)
    ensures Tokens(Single, Some(w), "'\"'\"'" + after) == Tokens(Single, Some(w + "'"), after)
  {
    hide Tokens;
    assert "'\"'\"'" + after == "'" + ("\"'\"" + ("'" + after));
    CloseSingle(w, "\"'\"" + ("'" + after));
    QuoteInDoubleQuotes(w, "'" + after);
    OpenSingle(Some(w + "'"), after);
  }

  lemma EmptyQuotesReadBack(word: Option<string>, rest: string)
    ensures Tokens(Plain, word, "''" + rest) == Tokens(Plain, Some(word.GetOr("")), rest)
  {
    hide Tokens;
    assert "''" + rest == "'" + ("'" + rest);
    OpenSingle(word, "'" + rest);
    CloseSingle(word.GetOr(""), rest);
  }

  lemma EscapedReadsBack(word: Option<string>, arg: string, rest: string)
    ensures Tokens(Plain, word, "'" + EscapeQuotes(arg) + "'" + rest) == Tokens(Plain, Some(word.GetOr("") + arg), rest)
  {
    hide Tokens, EscapeQuotes;
    var closing := "'" + rest;
    assert "'" + EscapeQuotes(arg) + "'" + rest == "'" + (EscapeQuotes(arg) + closing);
    OpenSingle(word, EscapeQuotes(arg) + closing);
    EscapedIsLiteral(word.GetOr(""), arg, closing);
    CloseSingle(word.GetOr("") + arg, rest);
  }

  /** A quoted argument reads as the argument, wherever in a word it stands and whatever comes behind it. */
  lemma QuotedReadsBack(word: Option<string>, arg: string, rest: string)
    ensures Tokens(Plain, word, ShellQuote(arg) + rest) == Tokens(Plain, Some(word.GetOr("") + arg), rest)
  {
    hide Tokens, EscapeQuotes, AllSafe;
    if arg == "" {
      assert word.GetOr("") + arg == word.GetOr("");
      EmptyQuotesReadBack(word, rest);
    } else if AllSafe(arg) {
      SafeIsLiteral(word, arg, rest);
    } else {
      EscapedReadsBack(word, arg, rest);
    }
  }

  lemma BlankEndsWord(w: string, rest: string)
    ensures Tokens(Plain, Some(w), " " + rest) == Prepend([Word(w)], Tokens(Plain, None, rest))
  {
    assert (" " + rest)[1..] == rest;
  }

  function Words(texts: seq<string>): seq<Token> {
    if texts == [] then [] else [Word(texts[0])] + Words(texts[1..])
  }

  lemma {:induction false} ArgsReadBack(args: seq<string>)
    ensures Tokens(Plain, None, Join(Quoted(args))) == Some(Words(args))
  {
    if args != [] {
      var q := Quoted(args[1..]);
      hide ShellQuote, Tokens;
      if |args| == 1 {
        assert Join(Quoted(args)) == ShellQuote(args[0]) + "";
        QuotedReadsBack(None, args[0], "");
        EndOfInput(args[0]);
        assert Words(args[1..]) == [] && Words(args) == [Word(args[0])];
        assert "" + args[0] == args[0];
      } else {
        assert Quoted(args)[1..] == q && |q| == |args| - 1 by { QuotedLength(args[1..]); }
        assert Join(Quoted(args)) == ShellQuote(args[0]) + (" " + Join(q));
        QuotedReadsBack(None, args[0], " " + Join(q));
        assert "" + args[0] == args[0];
        BlankEndsWord(args[0], Join(q));
        ArgsReadBack(args[1..]);
      }
    } else {
      NothingToRead();
    }
  }

  lemma NothingToRead()
    ensures Tokens(Plain, None, "") == Some([])
  {
  }

  lemma EndOfInput(w: string)
    ensures Tokens(Plain, Some("" + w), "") == Some([Word(w)])
  {
    assert "" + w == w;
  }

  lemma {:induction false} QuotedLength(args: seq<string>)
    ensures |Quoted(args)| == |args|
  {
    hide ShellQuote;
    if args != [] { QuotedLength(args[1..]); }
  }

  lemma {:induction false} AssignmentsLength(env: seq<(string, string)>)
    ensures |Assignments(env)| == |env|
  {
    hide ShellQuote;
    if env != [] { AssignmentsLength(env[1..]); }
  }

  function EnvWords(env: seq<(string, string)>): seq<Token> {
    if env == [] then [] else [Word(env[0].0 + "=" + env[0].1)] + EnvWords(env[1..])
  }

  lemma OneAssignment(entry: (string, string), rest: string)
    requires IsName(entry.0)
    ensures Tokens(Plain, None, entry.0 + "=" + ShellQuote(entry.1) + " " + rest)
            == Prepend([Word(entry.0 + "=" + entry.1)], Tokens(Plain, None, rest))
  {
    var name := entry.0 + "=";
    assert AllSafe(name);
    hide Tokens, ShellQuote, IsSafe, AllSafe;
    assert entry.0 + "=" + ShellQuote(entry.1) + " " + rest == name + (ShellQuote(entry.1) + (" " + rest));
    SafeIsLiteral(None, name, ShellQuote(entry.1) + (" " + rest));
    assert "" + name == name;
    QuotedReadsBack(Some(name), entry.1, " " + rest);
    BlankEndsWord(name + entry.1, rest);
  }

  /** The first assignment, and what follows it on the line. */
  lemma AssignmentsStep(env: seq<(string, string)>)
    requires env != []
    ensures Join(Assignments(env)) == env[0].0 + "=" + ShellQuote(env[0].1)
              + if |env| == 1 then "" else " " + Join(Assignments(env[1..]))
    ensures EnvWords(env) == [Word(env[0].0 + "=" + env[0].1)] + EnvWords(env[1..])
    ensures |env| == 1 ==> EnvWords(env[1..]) == []
  {
    hide ShellQuote, Join;
    AssignmentsLength(env[1..]);
    JoinCons(env[0].0 + "=" + ShellQuote(env[0].1), Assignments(env[1..]));
  }

  lemma JoinCons(word: string, words: seq<string>)
    ensures Join([word] + words) == word + if words == [] then "" else " " + Join(words)
  {
    assert ([word] + words)[1..] == words;
    assert word + "" == word;
    if words != [] { assert word + " " + Join(words) == word + (" " + Join(words)); }
  }

  lemma {:induction false} EnvReadsBack(env: seq<(string, string)>, rest: string)
    requires env != [] && forall e :: e in env ==> IsName(e.0)
    ensures Tokens(Plain, None, Join(Assignments(env)) + " " + rest)
        == Prepend(EnvWords(env), Tokens(Plain, None, rest))
  {
    hide Tokens, ShellQuote, IsName, Join, Assignments, EnvWords, Prepend;
    assert env[0] in env;
    AssignmentsStep(env);
    var first := [Word(env[0].0 + "=" + env[0].1)];
    if |env| == 1 {
      OneAssignment(env[0], rest);
      assert env[0].0 + "=" + ShellQuote(env[0].1) + "" == env[0].0 + "=" + ShellQuote(env[0].1);
      assert first + [] == first;
    } else {
      var more := Join(Assignments(env[1..])) + " " + rest;
      assert Join(Assignments(env)) + " " + rest == env[0].0 + "=" + ShellQuote(env[0].1) + " " + more;
      OneAssignment(env[0], more);
      assert forall e :: e in env[1..] ==> e in env;
      EnvReadsBack(env[1..], rest);
      PrependTwice(first, EnvWords(env[1..]), Tokens(Plain, None, rest));
    }
  }

  lemma CdReadsBack(rest: string)
    ensures Tokens(Plain, None, "cd " + rest) == Prepend([Word("cd")], Tokens(Plain, None, rest))
  {
    assert "cd " + rest == "cd" + (" " + rest);
    assert AllSafe("cd");
    hide Tokens;
    SafeIsLiteral(None, "cd", " " + rest);
    assert "" + "cd" == "cd";
    BlankEndsWord("cd", rest);
  }

  lemma DirectoryReadsBack(cwd: string, rest: string)
    ensures Tokens(Plain, None, ShellQuote(cwd) + " && " + rest)
            == Prepend([Word(cwd), Operator("&&")], Tokens(Plain, None, rest))
  {
    hide Tokens, ShellQuote;
    assert ShellQuote(cwd) + " && " + rest == ShellQuote(cwd) + (" " + ("&& " + rest));
    QuotedReadsBack(None, cwd, " " + ("&& " + rest));
    assert "" + cwd == cwd;
    BlankEndsWord(cwd, "&& " + rest);
    AndOperator(rest);
    PrependTwice([Word(cwd)], [Operator("&&")], Tokens(Plain, None, rest));
    assert [Word(cwd)] + [Operator("&&")] == [Word(cwd), Operator("&&")];
  }

  lemma PrependTwice(a: seq<Token>, b: seq<Token>, rest: Option<seq<Token>>)
    ensures Prepend(a, Prepend(b, rest)) == Prepend(a + b, rest)
  {
    if rest.Some? { assert a + (b + rest.value) == a + b + rest.value; }
  }

  lemma ChangeDirectoryReadsBack(cwd: string, rest: string)
    ensures Tokens(Plain, None, "cd " + ShellQuote(cwd) + " && " + rest)
            == Prepend([Word("cd"), Word(cwd), Operator("&&")], Tokens(Plain, None, rest))
  {
    hide Tokens, ShellQuote, Prepend;
    var behind := ShellQuote(cwd) + " && " + rest;
    assert "cd " + ShellQuote(cwd) + " && " + rest == "cd " + behind;
    CdReadsBack(behind);
    DirectoryReadsBack(cwd, rest);
    PrependTwice([Word("cd")], [Word(cwd), Operator("&&")], Tokens(Plain, None, rest));
    assert [Word("cd")] + [Word(cwd), Operator("&&")] == [Word("cd"), Word(cwd), Operator("&&")];
  }

  lemma AndOperator(rest: string)
    ensures Tokens(Plain, None, "&& " + rest) == Prepend([Operator("&&")], Tokens(Plain, None, rest))
  {
    var s := "&& " + rest;
    assert s[..2] == "&&" && s[2..] == " " + rest;
    assert OperatorLen(s) == 2;
    assert (" " + rest)[1..] == rest;
    var t := Tokens(Plain, None, rest);
    if t.Some? { assert [] + t.value == t.value; }
    assert [] + [Operator("&&")] == [Operator("&&")];
  }

  /**
   The shell reads the built line back as `cd`, the directory and `&&` (unless there is no directory),
   one `KEY=value` word per variable, and then exactly the arguments; nothing in it is expanded.
   */
  lemma CommandReadsBack(args: seq<string>, cwd: string, env: seq<(string, string)>)
    requires forall e :: e in env ==> IsName(e.0)
    ensures Tokens(Plain, None, CommandLine(args, cwd, env))
            == Some((if cwd == "" then [] else [Word("cd"), Word(cwd), Operator("&&")]) + EnvWords(env) + Words(args))
  {
    hide Tokens, ShellQuote, IsName, Join, Quoted, Assignments;
    var command := Join(Quoted(args));
    ArgsReadBack(args);
    if env != [] { EnvReadsBack(env, command); }
    var prefixed := if env == [] then command else Join(Assignments(env)) + " " + command;
    assert Tokens(Plain, None, prefixed) == Some(EnvWords(env) + Words(args)) by {
      if env == [] { assert EnvWords(env) + Words(args) == Words(args); }
    }
    if cwd != "" {
      ChangeDirectoryReadsBack(cwd, prefixed);
      var front := [Word("cd"), Word(cwd), Operator("&&")];
      assert front + (EnvWords(env) + Words(args)) == front + EnvWords(env) + Words(args);
    } else {
      assert [] + EnvWords(env) == EnvWords(env);
    }
  }
}
