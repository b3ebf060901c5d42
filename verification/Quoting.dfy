/**
 Command makes one line of text of a list of arguments, and Lex, a model of minimega's lexer, takes such a line apart.
 The lemmas say for which lists Lex undoes Command.
 */
module Quoting {
  import opened Wrappers
  import opened Annotations

  // Where the lexer is: between arguments, in one, or in a quoted part of one.
  datatype Mode = Between | Bare | Quoted(quote: char)

  function Unescaped(c: char): char {
    match c
    case 'n' => '\n'
    case 'r' => '\r'
    case 't' => '\t'
    case _ => c
  }

  /**
   minimega's lexer. Outside quotes it splits on white space, starts a quoted part at " or ', and drops a comment from #
   on. \ escapes the next rune. In quotes only the quote and \ are special. A quote or an escape that does not end is an
   error.
   */
  function Scan(s: string, mode: Mode, current: string, done: seq<string>): Option<seq<string>> {
    if s == "" then
      match mode
      case Between => Some(done)
      case Bare => Some(done + [current])
      case Quoted(_) => None
    else if s[0] == '\\' then
      if |s| == 1 then None
      else Scan(s[2..], if mode.Quoted? then mode else Bare, current + [Unescaped(s[1])], done)
    else if mode.Quoted? then
      if s[0] == mode.quote then Scan(s[1..], Bare, current, done) else Scan(s[1..], mode, current + [s[0]], done)
    else if IsSpace(s[0]) then Scan(s[1..], Between, "", if mode == Bare then done + [current] else done)
    else if s[0] == '#' then Some(if mode == Bare then done + [current] else done)
    else if s[0] == '"' || s[0] == '\'' then Scan(s[1..], Mode.Quoted(s[0]), current, done)
    else Scan(s[1..], Bare, current + [s[0]], done)
  }

  function Lex(s: string): Option<seq<string>> {
    Scan(s, Between, "", [])
  }

  predicate NeedsQuote(c: char) {
    IsSpace(c) || c in {'"', '\'', '\\', '#'}
  }

  predicate IsPlain(arg: string) {
    arg != "" && forall i :: 0 <= i < |arg| ==> !NeedsQuote(arg[i])
  }

  function EscapedRune(c: char): string {
    match c
    case '"' => "\\\""
    case '\\' => "\\\\"
    case '\n' => "\\n"
    case '\r' => "\\r"
    case '\t' => "\\t"
    case _ => [c]
  }

  // What is between the quotes.
  function Interior(arg: string): string {
    if arg == "" then "" else EscapedRune(arg[0]) + Interior(arg[1..])
  }

  function QuoteArg(arg: string): string {
    if IsPlain(arg) then arg else "\"" + Interior(arg) + "\""
  }

  function QuoteArgs(args: seq<string>): string
    decreases |args|
  {
    if args == [] then "" else if |args| == 1 then QuoteArg(args[0]) else QuoteArg(args[0]) + " " + QuoteArgs(args[1..])
  }

  function Command(namespace: string, args: seq<string>): string {
    var command := if |args| == 1 then args[0] else QuoteArgs(args);
    if namespace == "" then command else "namespace " + QuoteArg(namespace) + " " + command
  }

  // Which rune each of the template escapes replaces, in the order they are listed.
  const ESCAPES: seq<(char, string)> := [('\\', "\\\\"), ('"', "\\\""), ('\n', "\\n"), ('\r', "\\r"), ('\t', "\\t")]

  function Replacement(pairs: seq<(char, string)>, c: char): string
    decreases |pairs|
  {
    if pairs == [] then [c] else if pairs[0].0 == c then pairs[0].1 else Replacement(pairs[1..], c)
  }

  // A replacer goes over its input once, and never over what it wrote.
  function Replace(pairs: seq<(char, string)>, s: string): string {
    if s == "" then "" else Replacement(pairs, s[0]) + Replace(pairs, s[1..])
  }

  function EscapeQuoted(s: string): string {
    Replace(ESCAPES, s)
  }

  lemma ScanEscaped(c: char, rest: string, current: string, done: seq<string>)
    ensures Scan(EscapedRune(c) + rest, Mode.Quoted('"'), current, done) ==
              Scan(rest, Mode.Quoted('"'), current + [c], done)
  {
    var all := EscapedRune(c) + rest;
    if |EscapedRune(c)| == 1 {
      assert all[0] == c && all[1..] == rest;
    } else {
      assert all[0] == '\\' && all[2..] == rest;
      assert Unescaped(all[1]) == c;
    }
  }

  lemma {:induction false} ScanInterior(arg: string, rest: string, current: string, done: seq<string>)
    ensures Scan(Interior(arg) + "\"" + rest, Mode.Quoted('"'), current, done) == Scan(rest, Bare, current + arg, done)
  {
    if arg == "" {
      assert Interior(arg) + "\"" + rest == "\"" + rest;
      assert ("\"" + rest)[1..] == rest;
      assert current + arg == current;
    } else {
      var inner := Interior(arg[1..]) + "\"" + rest;
      var next := current + [arg[0]];
      assert Interior(arg) + "\"" + rest == EscapedRune(arg[0]) + inner;
      ScanEscaped(arg[0], inner, current, done);
      ScanInterior(arg[1..], rest, next, done);
      assert next + arg[1..] == current + arg;
    }
  }

  lemma {:induction false} ScanPlain(arg: string, rest: string, current: string, done: seq<string>)
    requires forall i :: 0 <= i < |arg| ==> !NeedsQuote(arg[i])
    ensures Scan(arg + rest, Bare, current, done) == Scan(rest, Bare, current + arg, done)
  {
    if arg == "" {
      assert arg + rest == rest && current + arg == current;
    } else {
      assert (arg + rest)[1..] == arg[1..] + rest;
      ScanPlain(arg[1..], rest, current + [arg[0]], done);
      assert current + [arg[0]] + arg[1..] == current + arg;
    }
  }

  lemma ScanOpening(rest: string, done: seq<string>)
    ensures Scan("\"" + rest, Between, "", done) == Scan(rest, Mode.Quoted('"'), "", done)
  {
    assert ("\"" + rest)[1..] == rest;
  }

  // The lexer reads a quoted argument back as one argument.
  lemma ScanQuoted(arg: string, rest: string, done: seq<string>)
    ensures Scan(QuoteArg(arg) + rest, Between, "", done) == Scan(rest, Bare, arg, done)
  {
    if IsPlain(arg) {
      ScanPlainArg(arg, rest, done);
    } else {
      assert QuoteArg(arg) + rest == "\"" + (Interior(arg) + "\"" + rest);
      ScanOpening(Interior(arg) + "\"" + rest, done);
      ScanInterior(arg, rest, "", done);
      assert "" + arg == arg;
    }
  }

  lemma ScanPlainArg(arg: string, rest: string, done: seq<string>)
    requires IsPlain(arg)
    ensures Scan(arg + rest, Between, "", done) == Scan(rest, Bare, arg, done)
  {
    assert (arg + rest)[1..] == arg[1..] + rest;
    assert "" + [arg[0]] == [arg[0]];
    ScanPlain(arg[1..], rest, [arg[0]], done);
    assert [arg[0]] + arg[1..] == arg;
  }

  lemma ScanQuotedThenSpace(arg: string, rest: string, done: seq<string>)
    ensures Scan(QuoteArg(arg) + " " + rest, Between, "", done) == Scan(rest, Between, "", done + [arg])
  {
    ScanQuoted(arg, " " + rest, done);
    assert QuoteArg(arg) + " " + rest == QuoteArg(arg) + (" " + rest);
    assert (" " + rest)[1..] == rest;
  }

  lemma HeadAndTail(done: seq<string>, args: seq<string>)
    requires args != []
    ensures done + [args[0]] + args[1..] == done + args
  {
  }

  /**
   Text without quotes and escapes reads the same whatever follows it after a #, also when that touches the last word.
   */
  lemma {:induction false} CommentIsDropped(s: string, comment: string, mode: Mode, current: string, done: seq<string>)
    requires !mode.Quoted? && forall i :: 0 <= i < |s| ==> s[i] !in {'"', '\'', '\\', '#'}
    ensures Scan(s + "#" + comment, mode, current, done) == Scan(s, mode, current, done)
    decreases |s|
  {
    var all := s + "#" + comment;
    if s != "" {
      assert all[0] == s[0] && all[1..] == s[1..] + "#" + comment;
      CommentIsDropped(s[1..], comment, Between, "", if mode == Bare then done + [current] else done);
      CommentIsDropped(s[1..], comment, Bare, current + [s[0]], done);
    }
  }

  /** The lexer reads the quoted arguments back, whatever runes they hold, empty ones too. */
  lemma {:induction false} ScanQuotedArgs(args: seq<string>, done: seq<string>)
    ensures Scan(QuoteArgs(args), Between, "", done) == Some(done + args)
    decreases |args|
  {
    if args == [] {
      assert done + args == done;
    } else if |args| == 1 {
      ScanQuoted(args[0], "", done);
      assert QuoteArg(args[0]) + "" == QuoteArg(args[0]);
      assert args == [args[0]];
    } else {
      var rest := QuoteArgs(args[1..]);
      assert QuoteArgs(args) == QuoteArg(args[0]) + " " + rest;
      ScanQuotedArgs(args[1..], done + [args[0]]);
      HeadAndTail(done, args);
      ScanQuotedThenSpace(args[0], rest, done);
    }
  }

  // What the lexer has read so far only precedes what it reads on.
  lemma {:induction false} ScanAfter(s: string, mode: Mode, current: string, before: seq<string>, done: seq<string>)
    ensures Scan(s, mode, current, before + done) ==
            match Scan(s, mode, current, done) case None => None case Some(more) => Some(before + more)
    decreases |s|
  {
    assert before + done + [current] == before + (done + [current]);
    if s != "" {
      if s[0] == '\\' {
        if |s| > 1 {
          ScanAfter(s[2..], if mode.Quoted? then mode else Bare, current + [Unescaped(s[1])], before, done);
        }
      } else if mode.Quoted? {
        ScanAfter(s[1..], Bare, current, before, done);
        ScanAfter(s[1..], mode, current + [s[0]], before, done);
      } else if IsSpace(s[0]) {
        ScanAfter(s[1..], Between, "", before, if mode == Bare then done + [current] else done);
      } else {
        ScanAfter(s[1..], Mode.Quoted(s[0]), current, before, done);
        ScanAfter(s[1..], Bare, current + [s[0]], before, done);
      }
    }
  }

  lemma LetterIsPlain(c: char)
    requires 'a' <= c <= 'z'
    ensures !NeedsQuote(c)
  {
  }

  lemma NamespaceIsPlain()
    ensures QuoteArg("namespace") == "namespace"
  {
    var word := "namespace";
    assert forall i :: 0 <= i < |word| ==> 'a' <= word[i] <= 'z';
    forall i | 0 <= i < |word|
      ensures !NeedsQuote(word[i])
    {
      LetterIsPlain(word[i]);
    }
  }

  lemma ScanTwoQuoted(first: string, second: string, rest: string)
    ensures Lex(QuoteArg(first) + " " + (QuoteArg(second) + " " + rest)) == Scan(rest, Between, "", [first, second])
  {
    ScanQuotedThenSpace(first, QuoteArg(second) + " " + rest, []);
    assert [] + [first] == [first];
    ScanQuotedThenSpace(second, rest, [first]);
    assert [first] + [second] == [first, second];
  }

  /** The namespace prefix puts two arguments before whatever the rest of the command reads as. */
  lemma NamespaceGoesFirst(namespace: string, command: string)
    ensures Lex("namespace " + QuoteArg(namespace) + " " + command) ==
            match Lex(command) case None => None case Some(args) => Some(["namespace", namespace] + args)
  {
    NamespaceIsPlain();
    ScanTwoQuoted("namespace", namespace, command);
    assert "namespace " + QuoteArg(namespace) + " " + command == "namespace" + " "
           + (QuoteArg(namespace) + " " + command);
    assert ["namespace", namespace] + [] == ["namespace", namespace];
    ScanAfter(command, Between, "", ["namespace", namespace], []);
  }

  /**
   Except for a single argument, the lexer reads a command back as its arguments, after the namespace when there is one.
   */
  lemma CommandRoundTrip(namespace: string, args: seq<string>)
    requires |args| != 1
    ensures Lex(Command(namespace, args)) == Some((if namespace == "" then [] else ["namespace", namespace]) + args)
  {
    ScanQuotedArgs(args, []);
    assert [] + args == args;
    if namespace != "" {
      NamespaceGoesFirst(namespace, QuoteArgs(args));
    }
  }

  function TotalLength(args: seq<string>): nat
    decreases |args|
  {
    if args == [] then 0 else TotalLength(args[..|args| - 1]) + |args[|args| - 1]|
  }

  lemma TotalWith(args: seq<string>, last: string)
    ensures TotalLength(args + [last]) == TotalLength(args) + |last|
  {
    assert (args + [last])[..|args|] == args;
  }

  // The lexer never reads more runes than there are, and fewer when one outside quotes is special.
  lemma {:induction false} ScanShortens(s: string, mode: Mode, current: string, done: seq<string>)
    requires Scan(s, mode, current, done).Some? && (mode == Between ==> current == "")
    ensures TotalLength(Scan(s, mode, current, done).value) <= TotalLength(done) + |current| + |s|
    ensures !mode.Quoted? && (exists i :: 0 <= i < |s| && NeedsQuote(s[i])) ==>
              TotalLength(Scan(s, mode, current, done).value) < TotalLength(done) + |current| + |s|
    decreases |s|
  {
    TotalWith(done, current);
    if s != "" {
      if s[0] == '\\' {
        ScanShortens(s[2..], if mode.Quoted? then mode else Bare, current + [Unescaped(s[1])], done);
      } else if mode.Quoted? {
        if s[0] == mode.quote {
          ScanShortens(s[1..], Bare, current, done);
        } else {
          ScanShortens(s[1..], mode, current + [s[0]], done);
        }
      } else if IsSpace(s[0]) {
        ScanShortens(s[1..], Between, "", if mode == Bare then done + [current] else done);
      } else if s[0] == '#' {
      } else if s[0] == '"' || s[0] == '\'' {
        ScanShortens(s[1..], Mode.Quoted(s[0]), current, done);
      } else {
        ScanShortens(s[1..], Bare, current + [s[0]], done);
        assert forall i :: 0 < i < |s| ==> s[i] == s[1..][i - 1];
      }
    }
  }

  /** A single argument is not quoted, so it is read back just when it needs no quotes, in any namespace. */
  lemma SingleArgumentIff(namespace: string, arg: string)
    ensures Lex(Command(namespace, [arg])) ==
              Some((if namespace == "" then [] else ["namespace", namespace]) + [arg]) <==>
            IsPlain(arg)
  {
    ReadsAsItselfIff(arg);
    if namespace != "" {
      NamespaceGoesFirst(namespace, arg);
      if Lex(arg).Some? {
        var all := ["namespace", namespace] + Lex(arg).value;
        assert all[2..] == Lex(arg).value && (["namespace", namespace] + [arg])[2..] == [arg];
      }
    } else {
      assert [] + [arg] == [arg];
    }
  }

  lemma ReadsAsItselfIff(arg: string)
    ensures Lex(arg) == Some([arg]) <==> IsPlain(arg)
  {
    if IsPlain(arg) {
      ScanQuoted(arg, "", []);
      assert arg + "" == arg;
      assert [] + [arg] == [arg];
    } else if arg != "" && Lex(arg) == Some([arg]) {
      assert [] + [arg] == [arg];
      TotalWith([], arg);
      ScanShortens(arg, Between, "", []);
    }
  }

  /** The template escapes are those that are written between quotes. */
  lemma {:induction false} EscapesAreInterior(s: string)
    ensures EscapeQuoted(s) == Interior(s)
  {
    if s != "" {
      EscapesAreInterior(s[1..]);
      ReplacementIsEscape(s[0]);
    }
  }

  lemma ReplacementIsEscape(c: char)
    ensures Replacement(ESCAPES, c) == EscapedRune(c)
  {
    assert ESCAPES[1..] == [('"', "\\\""), ('\n', "\\n"), ('\r', "\\r"), ('\t', "\\t")];
    assert ESCAPES[1..][1..] == [('\n', "\\n"), ('\r', "\\r"), ('\t', "\\t")];
    assert ESCAPES[1..][1..][1..] == [('\r', "\\r"), ('\t', "\\t")];
    assert ESCAPES[1..][1..][1..][1..] == [('\t', "\\t")];
    assert ESCAPES[1..][1..][1..][1..][1..] == [];
  }

  /** So a template that puts an escaped value between quotes gives one argument, which is the value. */
  lemma TemplateRoundTrip(s: string)
    ensures Lex("\"" + EscapeQuoted(s) + "\"") == Some([s])
  {
    EscapesAreInterior(s);
    var all := "\"" + Interior(s) + "\"";
    assert all[1..] == Interior(s) + "\"" + "";
    ScanInterior(s, "", "", []);
    assert "" + s == s;
    assert [] + [s] == [s];
  }

  predicate OneLine(s: string) {
    forall i :: 0 <= i < |s| ==> s[i] != '\n' && s[i] != '\r'
  }

  lemma {:induction false} InteriorIsOneLine(arg: string)
    ensures OneLine(Interior(arg))
  {
    if arg != "" {
      InteriorIsOneLine(arg[1..]);
    }
  }

  lemma QuotedIsOneLine(arg: string)
    ensures OneLine(QuoteArg(arg))
  {
    InteriorIsOneLine(arg);
  }

  /** A quoted command stays on one line, whatever its arguments hold. */
  lemma {:induction false} QuotedArgsAreOneLine(args: seq<string>)
    ensures OneLine(QuoteArgs(args))
    decreases |args|
  {
    if args != [] {
      QuotedIsOneLine(args[0]);
      QuotedArgsAreOneLine(args[1..]);
    }
  }

  method NeedsQuotes(arg: string) returns (needs: bool)
    ensures needs == !IsPlain(arg)
  {
    if arg == "" {
      return true;
    }
    var i := 0;
    while i < |arg|
      invariant 0 <= i <= |arg| && forall j :: 0 <= j < i ==> !NeedsQuote(arg[j])
    {
      if NeedsQuote(arg[i]) {
        return true;
      }
      i := i + 1;
    }
    needs := false;
  }

  lemma InteriorFrom(arg: string, i: nat, written: string)
    requires i < |arg|
    ensures written + Interior(arg[i..]) == written + EscapedRune(arg[i]) + Interior(arg[i + 1..])
  {
    assert arg[i..][1..] == arg[i + 1..];
  }

  // Quotes one argument, rune by rune.
  method QuoteMinimegaArg(arg: string) returns (quoted: string)
    ensures quoted == QuoteArg(arg)
  {
    var needs := NeedsQuotes(arg);
    if !needs {
      return arg;
    }
    quoted := "\"";
    var i := 0;
    while i < |arg|
      invariant 0 <= i <= |arg|
      invariant quoted + Interior(arg[i..]) == "\"" + Interior(arg)
    {
      var r := arg[i];
      InteriorFrom(arg, i, quoted);
      var written: string;
      match r {
        case '"' => written := "\\" + [r];
        case '\\' => written := "\\" + [r];
        case '\n' => written := "\\n";
        case '\r' => written := "\\r";
        case '\t' => written := "\\t";
        case _ => written := [r];
      }
      assert written == EscapedRune(r);
      quoted := quoted + written;
      i := i + 1;
    }
    quoted := quoted + "\"";
  }

  // The quoted arguments, in an array as they are quoted, joined by spaces.
  method QuoteMinimegaArgs(args: seq<string>) returns (command: string)
    ensures command == QuoteArgs(args)
  {
    var quoted := new string[|args|];
    var i := 0;
    while i < |args|
      invariant 0 <= i <= |args| && forall j :: 0 <= j < i ==> quoted[j] == QuoteArg(args[j])
    {
      quoted[i] := QuoteMinimegaArg(args[i]);
      i := i + 1;
    }
    command := "";
    while i > 0
      invariant 0 <= i <= |args| && forall j :: 0 <= j < |args| ==> quoted[j] == QuoteArg(args[j])
      invariant command == QuoteArgs(args[i..])
    {
      assert args[i - 1..][1..] == args[i..];
      command := if i == |args| then quoted[i - 1] else quoted[i - 1] + " " + command;
      i := i - 1;
    }
  }
}
