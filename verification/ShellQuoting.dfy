/**
 * The remote command line: POSIX quoting of arguments, and what a POSIX shell reads back.
 *
 * `Lex` is an independent reading of sections 2.2.2, 2.2.3 and 2.3 of the POSIX.1-2017
 * Shell Command Language; `ReadText` adds and-or lists (section 2.9.3), reserved words and
 * the words a shell may reserve (section 2.4) and assignment words (rule 7 of section 2.10.2).
 */
module ShellQuoting {
  import opened Wrappers
  import opened Bytes

  // ---------- Quoting ----------

  predicate IsLetter(c: char) { 'a' <= c <= 'z' || 'A' <= c <= 'Z' }

  predicate IsDigit(c: char) { '0' <= c <= '9' }

  predicate IsSafeChar(c: char) {
    IsLetter(c) || IsDigit(c) || c in "_./:=@%^,+-"
  }

  predicate IsSafe(arg: string) {
    arg != "" && forall i :: 0 <= i < |arg| ==> IsSafeChar(arg[i])
  }

  /** `replaceAll("'", "'\"'\"'")`. */
  function ReplaceQuotes(arg: string): (replaced: string) {
    if arg == "" then "" else (if arg[0] == '\'' then "'\"'\"'" else [arg[0]]) + ReplaceQuotes(arg[1..])
  }

  function ShellQuote(arg: string): (quoted: string) {
    if arg == "" then "''"
    else if IsSafe(arg) then arg
    else "'" + ReplaceQuotes(arg) + "'"
  }

  // ---------- Reading: token recognition ----------

  /** A character of a word, and whether quoting took its special meaning away. */
  datatype Lit = Lit(c: char, quoted: bool)

  type Word = seq<Lit>

  datatype Token = WordToken(word: Word) | AndIf

  datatype Mode = Unquoted | SingleQuoted | DoubleQuoted

  function Flush(current: Option<Word>): (tokens: seq<Token>) {
    if current.Some? then [WordToken(current.value)] else []
  }

  function Add(current: Option<Word>, lit: Lit): (word: Option<Word>) {
    Some(current.GetOr([]) + [lit])
  }

  function Prepend(tokens: seq<Token>, rest: Option<seq<Token>>): (all: Option<seq<Token>>) {
    if rest.Some? then Some(tokens + rest.value) else None
  }

  /**
   * The tokens of the rest of the input, `current` being the word read so far.  None for an
   * unterminated quotation, and for what the model leaves out: expansions, comments,
   * newlines and the operators other than `&&`.
   */
  function Lex(s: string, mode: Mode, current: Option<Word>): (tokens: Option<seq<Token>>)
    decreases |s|
  {
    match mode
    case Unquoted =>
      if s == "" then Some(Flush(current))
      else if s[0] == '&' then
        (if |s| > 1 && s[1] == '&' then Prepend(Flush(current) + [AndIf], Lex(s[2..], Unquoted, None)) else None)
      else if s[0] in "|;<>()\n$`" then None
      else if s[0] == '#' && current.None? then None
      else if s[0] == '\'' then Lex(s[1..], SingleQuoted, Some(current.GetOr([])))
      else if s[0] == '"' then Lex(s[1..], DoubleQuoted, Some(current.GetOr([])))
      else if s[0] == '\\' then
        (if |s| == 1 then None
         else if s[1] == '\n' then Lex(s[2..], Unquoted, current)
         else Lex(s[2..], Unquoted, Add(current, Lit(s[1], true))))
      else if s[0] == ' ' || s[0] == '\t' then Prepend(Flush(current), Lex(s[1..], Unquoted, None))
      else Lex(s[1..], Unquoted, Add(current, Lit(s[0], false)))
    case SingleQuoted =>
      if s == "" then None
      else if s[0] == '\'' then Lex(s[1..], Unquoted, current)
      else Lex(s[1..], SingleQuoted, Add(current, Lit(s[0], true)))
    case DoubleQuoted =>
      if s == "" then None
      else if s[0] == '"' then Lex(s[1..], Unquoted, current)
      else if s[0] == '$' || s[0] == '`' then None
      else if s[0] == '\\' && |s| > 1 && s[1] == '\n' then Lex(s[2..], DoubleQuoted, current)
      else if s[0] == '\\' && |s| > 1 && s[1] in "$`\"\\" then Lex(s[2..], DoubleQuoted, Add(current, Lit(s[1], true)))
      else Lex(s[1..], DoubleQuoted, Add(current, Lit(s[0], true)))
  }

  function Tokenize(s: string): (tokens: Option<seq<Token>>) {
    Lex(s, Unquoted, None)
  }

  /** Quote removal, section 2.6.7. */
  function TextOf(word: Word): (text: string)
    ensures |text| == |word|
  {
    seq(|word|, i requires 0 <= i < |word| => word[i].c)
  }

  function Marked(text: string, quoted: bool): (word: Word)
    ensures |word| == |text| && TextOf(word) == text
  {
    seq(|text|, i requires 0 <= i < |text| => Lit(text[i], quoted))
  }

  /** The word a quoted argument is read as. */
  function WordOf(arg: string): (word: Word)
    ensures TextOf(word) == arg
  {
    Marked(arg, !IsSafe(arg))
  }

  lemma LexSafeChar(c: char, rest: string, current: Option<Word>)
    requires IsSafeChar(c)
    ensures Lex([c] + rest, Unquoted, current) == Lex(rest, Unquoted, Add(current, Lit(c, false)))
  {
    var s := [c] + rest;
    assert s[0] == c && s[1..] == rest;
    assert c !in "|;<>()\n$`&#'\"\\ \t";
  }

  lemma MarkedCons(text: string, quoted: bool)
    requires text != ""
    ensures Marked(text, quoted) == [Lit(text[0], quoted)] + Marked(text[1..], quoted)
  {
  }

  lemma {:induction false} LexPlain(text: string, rest: string, current: Option<Word>)
    requires forall i :: 0 <= i < |text| ==> IsSafeChar(text[i])
    requires text != ""
    ensures Lex(text + rest, Unquoted, current) == Lex(rest, Unquoted, Some(current.GetOr([]) + Marked(text, false)))
    decreases |text|
  {
    hide Lex, IsSafeChar;
    var first, next := Lit(text[0], false), Add(current, Lit(text[0], false));
    assert text + rest == [text[0]] + (text[1..] + rest);
    LexSafeChar(text[0], text[1..] + rest, current);
    MarkedCons(text, false);
    if |text| == 1 {
      assert text[1..] + rest == rest;
      assert Marked(text, false) == [first];
    } else {
      LexPlain(text[1..], rest, next);
      Associate(current.GetOr([]), [first], Marked(text[1..], false));
    }
  }

  lemma LexQuotedChar(c: char, rest: string, word: Word)
    requires c != '\''
    ensures Lex([c] + rest, SingleQuoted, Some(word)) == Lex(rest, SingleQuoted, Some(word + [Lit(c, true)]))
  {
    var s := [c] + rest;
    assert s[0] == c && s[1..] == rest;
  }

  lemma LexClosesQuote(rest: string, word: Word)
    ensures Lex("'" + rest, SingleQuoted, Some(word)) == Lex(rest, Unquoted, Some(word))
  {
    var s := "'" + rest;
    assert s[0] == '\'' && s[1..] == rest;
  }

  lemma {:induction false} LexInQuotes(text: string, rest: string, word: Word)
    ensures Lex(ReplaceQuotes(text) + "'" + rest, SingleQuoted, Some(word))
         == Lex(rest, Unquoted, Some(word + Marked(text, true)))
    decreases |text|
  {
    hide Lex;
    var s := ReplaceQuotes(text) + "'" + rest;
    if text == "" {
      assert s == "'" + rest;
      LexClosesQuote(rest, word);
      assert word + Marked(text, true) == word;
    } else {
      var first, tail := Lit(text[0], true), ReplaceQuotes(text[1..]) + "'" + rest;
      LexInQuotes(text[1..], rest, word + [first]);
      assert Marked(text, true) == [first] + Marked(text[1..], true);
      Associate(word, [first], Marked(text[1..], true));
      if text[0] == '\'' {
        LexEmbeddedQuote(tail, word);
        assert s == "'\"'\"'" + tail;
      } else {
        assert s == [text[0]] + tail;
        LexQuotedChar(text[0], tail, word);
      }
    }
  }

  /** Out of single quotes, one single quote in double quotes, and back in. */
  lemma LexEmbeddedQuote(tail: string, word: Word)
    ensures Lex("'\"'\"'" + tail, SingleQuoted, Some(word)) == Lex(tail, SingleQuoted, Some(word + [Lit('\'', true)]))
  {
    var s := "'\"'\"'" + tail;
    var quote := Lit('\'', true);
    assert s[1..] == "\"'\"'" + tail && s[1..][1..] == "'\"'" + tail;
    assert s[1..][1..][1..] == "\"'" + tail && s[1..][1..][1..][1..] == "'" + tail;
    assert s[1..][1..][1..][1..][1..] == tail;
    calc {
      Lex(s, SingleQuoted, Some(word));
      Lex("\"'\"'" + tail, Unquoted, Some(word));
      Lex("'\"'" + tail, DoubleQuoted, Some(word));
      Lex("\"'" + tail, DoubleQuoted, Some(word + [quote]));
      Lex("'" + tail, Unquoted, Some(word + [quote]));
      Lex(tail, SingleQuoted, Some(word + [quote]));
    }
  }

  lemma LexOpensQuote(inner: string, current: Option<Word>)
    ensures Lex("'" + inner, Unquoted, current) == Lex(inner, SingleQuoted, Some(current.GetOr([])))
  {
    var s := "'" + inner;
    assert s[0] == '\'' && s[1..] == inner;
  }

  /** A quoted argument is read as itself, whatever stands before it in the word and after it. */
  lemma LexQuoted(arg: string, rest: string, current: Option<Word>)
    ensures Lex(ShellQuote(arg) + rest, Unquoted, current) == Lex(rest, Unquoted, Some(current.GetOr([]) + WordOf(arg)))
  {
    hide Lex, IsSafeChar;
    if IsSafe(arg) {
      LexPlain(arg, rest, current);
    } else {
      var inner := ReplaceQuotes(arg) + "'" + rest;
      assert ShellQuote(arg) + rest == "'" + inner;
      LexOpensQuote(inner, current);
      LexInQuotes(arg, rest, current.GetOr([]));
    }
  }

  // ---------- The command ----------

  datatype Binding = Binding(key: string, value: string)

  predicate IsName(s: string) {
    && s != "" && !IsDigit(s[0])
    && forall i :: 0 <= i < |s| ==> IsLetter(s[i]) || IsDigit(s[i]) || s[i] == '_'
  }

  function Assignment(binding: Binding): (text: string) {
    binding.key + "=" + ShellQuote(binding.value)
  }

  /** `pieces.join(' ')`. */
  function Spaced(pieces: seq<string>): (text: string) {
    if pieces == [] then ""
    else if |pieces| == 1 then pieces[0]
    else pieces[0] + " " + Spaced(pieces[1..])
  }

  function QuotedArgs(args: seq<string>): (pieces: seq<string>) {
    seq(|args|, i requires 0 <= i < |args| => ShellQuote(args[i]))
  }

  function Assignments(env: seq<Binding>): (pieces: seq<string>) {
    seq(|env|, i requires 0 <= i < |env| => Assignment(env[i]))
  }

  function CommandText(args: seq<string>, cwd: string, env: seq<Binding>): (text: string) {
    var command := Spaced(QuotedArgs(args));
    var withEnv := if env == [] then command else Spaced(Assignments(env)) + " " + command;
    if cwd == "" then withEnv else "cd " + ShellQuote(cwd) + " && " + withEnv
  }

  /** `_buildExecCommand`; None where an invalid variable name makes it throw. */
  method BuildExecCommand(args: seq<string>, cwd: string, env: Option<seq<Binding>>) returns (text: Option<string>)
    ensures text == if forall binding <- env.GetOr([]) :: IsName(binding.key)
                    then Some(CommandText(args, cwd, env.GetOr([]))) else None
  {
    hide IsName, Spaced, ShellQuote;
    var command := Spaced(QuotedArgs(args));
    if env.Some? {
      var assignments: seq<string> := [];
      for i := 0 to |env.value|
        invariant forall binding <- env.value[..i] :: IsName(binding.key)
        invariant assignments == Assignments(env.value)[..i]
      {
        if !IsName(env.value[i].key) {
          assert env.value[i] in env.value;
          return None;
        }
        assert env.value[..i + 1] == env.value[..i] + [env.value[i]];
        assignments := assignments + [env.value[i].key + "=" + ShellQuote(env.value[i].value)];
      }
      assert env.value[..|env.value|] == env.value && assignments == Assignments(env.value);
      if |assignments| > 0 {
        command := Spaced(assignments) + " " + command;
      }
    }
    if cwd != "" {
      command := "cd " + ShellQuote(cwd) + " && " + command;
    }
    text := Some(command);
  }

  // ---------- The tokens of the command ----------

  function AssignmentWord(binding: Binding): (word: Word)
    ensures TextOf(word) == binding.key + "=" + binding.value
  {
    Marked(binding.key + "=", false) + WordOf(binding.value)
  }

  function WordTokens(words: seq<Word>): (tokens: seq<Token>)
    ensures |tokens| == |words|
  {
    seq(|words|, i requires 0 <= i < |words| => WordToken(words[i]))
  }

  function ArgWords(args: seq<string>): (words: seq<Word>)
    ensures |words| == |args|
  {
    seq(|args|, i requires 0 <= i < |args| => WordOf(args[i]))
  }

  function AssignmentWords(env: seq<Binding>): (words: seq<Word>)
    ensures |words| == |env|
  {
    seq(|env|, i requires 0 <= i < |env| => AssignmentWord(env[i]))
  }

  function CdTokens(cwd: string): (tokens: seq<Token>) {
    if cwd == "" then [] else [WordToken(Marked("cd", false)), WordToken(WordOf(cwd)), AndIf]
  }

  /** At the start of a word, `piece` is read as `word` whatever follows. */
  ghost predicate ReadsAs(piece: string, word: Word) {
    forall rest :: Lex(piece + rest, Unquoted, None) == Lex(rest, Unquoted, Some(word))
  }

  lemma ArgReadsAs(arg: string)
    ensures ReadsAs(ShellQuote(arg), WordOf(arg))
  {
    forall rest
      ensures Lex(ShellQuote(arg) + rest, Unquoted, None) == Lex(rest, Unquoted, Some(WordOf(arg)))
    {
      LexQuoted(arg, rest, None);
      assert [] + WordOf(arg) == WordOf(arg);
    }
  }

  lemma AssignmentReadsAs(binding: Binding)
    requires IsName(binding.key)
    ensures ReadsAs(Assignment(binding), AssignmentWord(binding))
  {
    hide Lex, WordOf, ShellQuote;
    var name := binding.key + "=";
    assert IsSafeChar('=') && IsSafeChar('_');
    forall rest
      ensures Lex(Assignment(binding) + rest, Unquoted, None) == Lex(rest, Unquoted, Some(AssignmentWord(binding)))
    {
      assert Assignment(binding) + rest == name + (ShellQuote(binding.value) + rest);
      LexPlain(name, ShellQuote(binding.value) + rest, None);
      assert [] + Marked(name, false) == Marked(name, false);
      LexQuoted(binding.value, rest, Some(Marked(name, false)));
    }
  }

  lemma LexBlank(rest: string, word: Word)
    ensures Lex(" " + rest, Unquoted, Some(word)) == Prepend([WordToken(word)], Lex(rest, Unquoted, None))
    ensures Lex("", Unquoted, Some(word)) == Some([WordToken(word)])
  {
    assert (" " + rest)[1..] == rest;
  }

  lemma PrependTwice(a: seq<Token>, b: seq<Token>, rest: Option<seq<Token>>)
    ensures Prepend(a, Prepend(b, rest)) == Prepend(a + b, rest)
  {
    if rest.Some? { Associate(a, b, rest.value); }
  }

  /** Words separated by single blanks, at the end of the input. */
  lemma {:induction false} LexWords(pieces: seq<string>, words: seq<Word>)
    requires |pieces| == |words| && forall i :: 0 <= i < |pieces| ==> ReadsAs(pieces[i], words[i])
    ensures Tokenize(Spaced(pieces)) == Some(WordTokens(words))
    decreases |pieces|
  {
    if pieces == [] {
      EmptyInput();
    } else {
      hide Lex;
      assert ReadsAs(pieces[0], words[0]);
      assert pieces[0] + "" == pieces[0];
      var rest := Spaced(pieces[1..]);
      LexBlank(rest, words[0]);
      if |pieces| == 1 {
        assert WordTokens(words) == [WordToken(words[0])];
      } else {
        assert Spaced(pieces) == pieces[0] + (" " + rest);
        LexWords(pieces[1..], words[1..]);
        assert WordTokens(words) == [WordToken(words[0])] + WordTokens(words[1..]);
      }
    }
  }

  lemma EmptyInput()
    ensures Tokenize("") == Some([])
  {
  }

  /** Words separated by single blanks, with more to come. */
  lemma {:induction false} LexWordsThen(pieces: seq<string>, words: seq<Word>, rest: string)
    requires |pieces| == |words| > 0 && forall i :: 0 <= i < |pieces| ==> ReadsAs(pieces[i], words[i])
    ensures Tokenize(Spaced(pieces) + " " + rest) == Prepend(WordTokens(words), Tokenize(rest))
    decreases |pieces|
  {
    hide Lex;
    assert ReadsAs(pieces[0], words[0]);
    if |pieces| == 1 {
      assert Spaced(pieces) + " " + rest == pieces[0] + (" " + rest);
      LexBlank(rest, words[0]);
      assert WordTokens(words) == [WordToken(words[0])];
    } else {
      var more := Spaced(pieces[1..]) + " " + rest;
      assert Spaced(pieces) + " " + rest == pieces[0] + (" " + more);
      LexBlank(more, words[0]);
      LexWordsThen(pieces[1..], words[1..], rest);
      PrependTwice([WordToken(words[0])], WordTokens(words[1..]), Tokenize(rest));
      assert WordTokens(words) == [WordToken(words[0])] + WordTokens(words[1..]);
    }
  }

  lemma LexAndIf(rest: string)
    ensures Tokenize("&& " + rest) == Prepend([AndIf], Tokenize(rest))
  {
    var s := "&& " + rest;
    assert s[2..] == " " + rest && (" " + rest)[1..] == rest;
    assert [] + [AndIf] == [AndIf];
    assert Lex(" " + rest, Unquoted, None) == Prepend([], Tokenize(rest));
    PrependTwice([AndIf], [], Tokenize(rest));
    assert [AndIf] + [] == [AndIf];
  }

  /** The tokens of the whole command: change directory, the assignments, the arguments, and nothing else. */
  lemma TokensOfCommand(args: seq<string>, cwd: string, env: seq<Binding>)
    requires forall binding <- env :: IsName(binding.key)
    ensures Tokenize(CommandText(args, cwd, env)) ==
            Some(CdTokens(cwd) + WordTokens(AssignmentWords(env) + ArgWords(args)))
  {
    hide Tokenize, ReadsAs, ShellQuote, IsName;
    forall i | 0 <= i < |args|
      ensures ReadsAs(QuotedArgs(args)[i], ArgWords(args)[i])
    {
      ArgReadsAs(args[i]);
    }
    forall i | 0 <= i < |env|
      ensures ReadsAs(Assignments(env)[i], AssignmentWords(env)[i])
    {
      AssignmentReadsAs(env[i]);
    }
    var command := Spaced(QuotedArgs(args));
    LexWords(QuotedArgs(args), ArgWords(args));
    var words := AssignmentWords(env) + ArgWords(args);
    assert WordTokens(words) == WordTokens(AssignmentWords(env)) + WordTokens(ArgWords(args));
    if env != [] {
      LexWordsThen(Assignments(env), AssignmentWords(env), command);
    } else {
      assert words == ArgWords(args);
    }
    var withEnv := if env == [] then command else Spaced(Assignments(env)) + " " + command;
    assert Tokenize(withEnv) == Some(WordTokens(words));
    if cwd == "" {
      assert [] + WordTokens(words) == WordTokens(words);
    } else {
      CdPrefix(cwd, withEnv);
    }
  }

  lemma CdPrefix(cwd: string, rest: string)
    requires cwd != ""
    ensures Tokenize("cd " + ShellQuote(cwd) + " && " + rest) == Prepend(CdTokens(cwd), Tokenize(rest))
  {
    hide Tokenize, Lex, ShellQuote;
    var pieces, words := ["cd", ShellQuote(cwd)], [Marked("cd", false), WordOf(cwd)];
    CdReadsAs();
    ArgReadsAs(cwd);
    LexWordsThen(pieces, words, "&& " + rest);
    LexAndIf(rest);
    assert pieces[1..] == [ShellQuote(cwd)];
    assert Spaced(pieces) + " " + ("&& " + rest) == "cd " + ShellQuote(cwd) + " && " + rest;
    PrependTwice(WordTokens(words), [AndIf], Tokenize(rest));
    assert WordTokens(words) + [AndIf] == CdTokens(cwd);
  }

  lemma CdReadsAs()
    ensures ReadsAs("cd", Marked("cd", false))
  {
    forall rest
      ensures Lex("cd" + rest, Unquoted, None) == Lex(rest, Unquoted, Some(Marked("cd", false)))
    {
      LexPlain("cd", rest, None);
      assert [] + Marked("cd", false) == Marked("cd", false);
    }
  }

  // ---------- The command the shell runs ----------

  const RESERVED_WORDS := {"case", "do", "done", "elif", "else", "esac", "fi", "for", "if", "in", "then", "until", "while",
                           "{", "}", "!"}

  predicate AllUnquoted(word: Word) {
    forall i :: 0 <= i < |word| ==> !word[i].quoted
  }

  /** Words some shells reserve, with unspecified results. */
  const MAYBE_RESERVED_WORDS := {"[[", "]]", "function", "select"}

  /** Section 2.4: only an unquoted first word is a reserved word. */
  predicate IsReserved(word: Word) {
    AllUnquoted(word) && TextOf(word) in RESERVED_WORDS
  }

  predicate IsLabel(text: string) {
    text != "" && text[|text| - 1] == ':' && IsName(text[..|text| - 1])
  }

  /** Section 2.4: such a first word, or a name and a colon, makes the results unspecified. */
  predicate IsUnspecified(word: Word) {
    AllUnquoted(word) && (TextOf(word) in MAYBE_RESERVED_WORDS || IsLabel(TextOf(word)))
  }

  /** Where the first unquoted `=` of a word is. */
  function FirstEquals(word: Word): (k: nat)
    ensures k <= |word|
    ensures k < |word| ==> word[k] == Lit('=', false)
    ensures forall i :: 0 <= i < k ==> word[i] != Lit('=', false)
  {
    if word == [] || word[0] == Lit('=', false) then 0 else 1 + FirstEquals(word[1..])
  }

  /** Rule 7 of section 2.10.2: an unquoted name before an unquoted `=`. */
  predicate IsAssignmentWord(word: Word) {
    var k := FirstEquals(word);
    k < |word| && AllUnquoted(word[..k]) && IsName(TextOf(word[..k]))
  }

  /** Rule 7 again: with anything else before the `=` it is unspecified whether this is an assignment. */
  predicate IsDoubtful(word: Word) {
    0 < FirstEquals(word) < |word| && !IsAssignmentWord(word)
  }

  function BindingOf(word: Word): (binding: Binding)
    requires IsAssignmentWord(word)
  {
    var k := FirstEquals(word);
    Binding(TextOf(word[..k]), TextOf(word[k + 1..]))
  }

  datatype Command = Simple(env: seq<Binding>, args: seq<string>) | Compound | Unspecified

  /** The assignments are the leading assignment words; the rest is the command and its arguments. */
  function ReadWords(words: seq<Word>): (command: (seq<Binding>, seq<string>)) {
    if words != [] && IsAssignmentWord(words[0]) then
      var (env, args) := ReadWords(words[1..]);
      ([BindingOf(words[0])] + env, args)
    else ([], seq(|words|, i requires 0 <= i < |words| => TextOf(words[i])))
  }

  /** The first word after the leading assignments may be one more, or not. */
  predicate StartsDoubtfully(words: seq<Word>) {
    words != [] && if IsAssignmentWord(words[0]) then StartsDoubtfully(words[1..]) else IsDoubtful(words[0])
  }

  function ReadCommand(words: seq<Word>): (command: Command) {
    if words != [] && IsReserved(words[0]) then Compound
    else if words != [] && IsUnspecified(words[0]) then Unspecified
    else if StartsDoubtfully(words) then Unspecified
    else var (env, args) := ReadWords(words); Simple(env, args)
  }

  /** The words between one `&&` and the next. */
  function Segments(tokens: seq<Token>): (segments: seq<seq<Word>>)
    ensures segments != []
  {
    if tokens == [] then [[]] else
      var rest := Segments(tokens[1..]);
      if tokens[0].AndIf? then [[]] + rest else [[tokens[0].word] + rest[0]] + rest[1..]
  }

  /** The commands of an and-or list; None is a syntax error: a `&&` with nothing on one side, or text beyond `Lex`. */
  function ReadText(text: string): (commands: Option<seq<Command>>) {
    match Tokenize(text)
    case None => None
    case Some(tokens) =>
      var segments := Segments(tokens);
      if |segments| > 1 && [] in segments then None
      else Some(ReadCommands(segments))
  }

  function ReadCommands(segments: seq<seq<Word>>): (commands: seq<Command>) {
    if segments == [] then [] else [ReadCommand(segments[0])] + ReadCommands(segments[1..])
  }

  /** An argument the shell takes for an assignment when it comes first. */
  predicate LooksLikeAssignment(arg: string) {
    IsSafe(arg) && exists k :: 0 <= k < |arg| && arg[k] == '=' && IsName(arg[..k])
  }

  /** An argument that a shell may or may not take for an assignment when it comes first. */
  predicate LooksDoubtful(arg: string) {
    IsSafe(arg) && arg[0] != '=' && '=' in arg && !LooksLikeAssignment(arg)
  }

  /** A first argument that is, or in some shells may be, a reserved word. */
  predicate LooksReserved(arg: string) {
    IsSafe(arg) && (arg in RESERVED_WORDS || arg in MAYBE_RESERVED_WORDS || IsLabel(arg))
  }

  lemma AssignmentWordRead(binding: Binding)
    requires IsName(binding.key)
    ensures IsAssignmentWord(AssignmentWord(binding)) && BindingOf(AssignmentWord(binding)) == binding
    ensures !IsReserved(AssignmentWord(binding)) && !IsUnspecified(AssignmentWord(binding))
  {
    hide WordOf;
    var word, n := AssignmentWord(binding), |binding.key|;
    assert forall i :: 0 <= i < n ==> word[i] == Lit(binding.key[i], false);
    assert word[n] == Lit('=', false);
    FirstEqualsAt(word, n);
    assert TextOf(word[..n]) == binding.key;
    assert TextOf(word[n + 1..]) == binding.value;
    assert TextOf(word)[n] == '=';
    ReservedHasNoEquals(TextOf(word));
  }

  lemma ReservedHasNoEquals(text: string)
    ensures text in RESERVED_WORDS + MAYBE_RESERVED_WORDS || IsLabel(text) ==> '=' !in text
  {
    if IsLabel(text) {
      var name := text[..|text| - 1];
      assert forall i :: 0 <= i < |name| ==> name[i] == text[i];
    }
  }

  lemma {:induction false} FirstEqualsAt(word: Word, n: nat)
    requires n < |word| && word[n] == Lit('=', false)
    requires forall i :: 0 <= i < n ==> word[i] != Lit('=', false)
    ensures FirstEquals(word) == n
  {
  }

  lemma {:induction false} ReadAssignments(env: seq<Binding>, words: seq<Word>)
    requires forall binding <- env :: IsName(binding.key)
    ensures ReadWords(AssignmentWords(env) + words) == (env + ReadWords(words).0, ReadWords(words).1)
    ensures StartsDoubtfully(AssignmentWords(env) + words) <==> StartsDoubtfully(words)
    decreases |env|
  {
    hide IsAssignmentWord, BindingOf, AssignmentWord, IsDoubtful;
    if env == [] {
      assert AssignmentWords(env) + words == words && env + ReadWords(words).0 == ReadWords(words).0;
    } else {
      assert env[0] in env;
      AssignmentWordRead(env[0]);
      ReadAssignments(env[1..], words);
      assert (AssignmentWords(env) + words)[1..] == AssignmentWords(env[1..]) + words;
      Associate([env[0]], env[1..], ReadWords(words).0);
      assert [env[0]] + env[1..] == env;
    }
  }

  /** A quoted argument is taken for something else exactly when it needed no quotes and looks like it. */
  lemma ArgumentRead(arg: string)
    ensures IsAssignmentWord(WordOf(arg)) <==> LooksLikeAssignment(arg)
    ensures IsDoubtful(WordOf(arg)) <==> LooksDoubtful(arg)
    ensures IsReserved(WordOf(arg)) <==> IsSafe(arg) && arg in RESERVED_WORDS
    ensures IsUnspecified(WordOf(arg)) <==> IsSafe(arg) && (arg in MAYBE_RESERVED_WORDS || IsLabel(arg))
  {
    var word := WordOf(arg);
    assert forall i :: 0 <= i < |arg| ==> word[i] == Lit(arg[i], !IsSafe(arg));
    if IsSafe(arg) {
      var k := FirstEquals(word);
      assert TextOf(word[..k]) == arg[..k];
      if j :| 0 <= j < |arg| && arg[j] == '=' && IsName(arg[..j]) {
        forall i | 0 <= i < j
          ensures word[i] != Lit('=', false)
        {
          assert arg[..j][i] == arg[i];
        }
        FirstEqualsAt(word, j);
      }
      assert forall i :: 0 <= i < |arg| && arg[i] == '=' ==> word[i] == Lit('=', false);
    } else if word != [] {
      assert word[0].quoted;
    }
  }

  /** A first argument that every shell takes for the name of the command, after these assignments. */
  predicate NamesCommand(arg: string, env: seq<Binding>) {
    !LooksLikeAssignment(arg) && !LooksDoubtful(arg) && (env == [] ==> !LooksReserved(arg))
  }

  /** The words of a command are read as that command, unless its first argument is taken for something else. */
  lemma {:induction false} WordsUnderstoodIff(args: seq<string>, env: seq<Binding>)
    requires forall binding <- env :: IsName(binding.key)
    ensures ReadCommand(AssignmentWords(env) + ArgWords(args)) == Simple(env, args) <==>
            args == [] || NamesCommand(args[0], env)
  {
    hide IsAssignmentWord, IsDoubtful, BindingOf, AssignmentWord, IsReserved, IsUnspecified, WordOf;
    hide LooksLikeAssignment, LooksDoubtful;
    var words := AssignmentWords(env) + ArgWords(args);
    ReadAssignments(env, ArgWords(args));
    if env != [] {
      assert env[0] in env;
      AssignmentWordRead(env[0]);
    } else {
      assert words == ArgWords(args);
    }
    if args != [] {
      ArgumentRead(args[0]);
      assert ArgWords(args)[0] == WordOf(args[0]);
      var (found, rest) := ReadWords(ArgWords(args));
      if !LooksLikeAssignment(args[0]) {
        assert rest == args;
        assert env + [] == env;
      } else {
        assert |env + found| > |env|;
      }
    } else {
      assert env + [] == env;
    }
  }

  lemma {:induction false} SegmentsOfWords(words: seq<Word>)
    ensures Segments(WordTokens(words)) == [words]
    decreases |words|
  {
    if words != [] {
      SegmentsOfWords(words[1..]);
      assert WordTokens(words)[1..] == WordTokens(words[1..]);
      assert [words[0]] + words[1..] == words;
    }
  }

  lemma SegmentsOfCd(cwd: string, words: seq<Word>)
    requires cwd != ""
    ensures Segments(CdTokens(cwd) + WordTokens(words)) == [[Marked("cd", false), WordOf(cwd)], words]
  {
    hide Marked, WordOf;
    var tokens, cd := CdTokens(cwd) + WordTokens(words), Marked("cd", false);
    SegmentsOfWords(words);
    assert tokens[2..][1..] == WordTokens(words) && tokens[2] == AndIf;
    assert Segments(tokens[2..]) == [[], words];
    assert tokens[1..][1..] == tokens[2..] && tokens[1] == WordToken(WordOf(cwd));
    assert Segments(tokens[1..]) == [[WordOf(cwd)] + [], words];
    assert tokens[0] == WordToken(cd) && [WordOf(cwd)] + [] == [WordOf(cwd)];
    assert Segments(tokens) == [[cd] + [WordOf(cwd)], words];
    assert [cd] + [WordOf(cwd)] == [cd, WordOf(cwd)];
  }

  lemma ReadOneOrTwo(first: seq<Word>, second: seq<Word>)
    ensures ReadCommands([second]) == [ReadCommand(second)]
    ensures ReadCommands([first, second]) == [ReadCommand(first), ReadCommand(second)]
  {
    hide ReadCommand;
    assert [first, second][1..] == [second] && [second][1..] == [];
  }

  lemma CdUnderstood(cwd: string)
    ensures ReadCommand([Marked("cd", false), WordOf(cwd)]) == Simple([], ["cd", cwd])
  {
    hide ReadCommand, NamesCommand;
    CdIsPlain();
    WordsUnderstoodIff(["cd", cwd], []);
    assert AssignmentWords([]) + ArgWords(["cd", cwd]) == [Marked("cd", false), WordOf(cwd)];
  }

  lemma CdIsPlain()
    ensures IsSafe("cd") && NamesCommand("cd", [])
  {
  }

  /** What the caller means: change directory first if one is given, then the command. */
  function Intended(args: seq<string>, cwd: string, env: seq<Binding>): (commands: seq<Command>) {
    (if cwd == "" then [] else [Simple([], ["cd", cwd])]) + [Simple(env, args)]
  }

  /**
   * The shell understands the text as meant if and only if a directory change is not left without
   * a command, and the first argument neither looks like an assignment, certain or doubtful, nor,
   * when no assignment stands before it, like a reserved word.
   */
  lemma {:induction false} CommandUnderstoodIff(args: seq<string>, cwd: string, env: seq<Binding>)
    requires forall binding <- env :: IsName(binding.key)
    ensures ReadText(CommandText(args, cwd, env)) == Some(Intended(args, cwd, env)) <==>
      if args == [] then env != [] || cwd == ""
      else NamesCommand(args[0], env)
  {
    hide Tokenize, CommandText, ReadCommand, Segments, WordOf, AssignmentWords, ArgWords, IsName, NamesCommand;
    var words := AssignmentWords(env) + ArgWords(args);
    TokensOfCommand(args, cwd, env);
    WordsUnderstoodIff(args, env);
    var commands := ReadText(CommandText(args, cwd, env));
    if cwd == "" {
      SegmentsOfWords(words);
      assert [] + WordTokens(words) == WordTokens(words);
      ReadOneOrTwo([], words);
      assert commands.value[0] == ReadCommand(words) && Intended(args, cwd, env) == [Simple(env, args)];
    } else {
      SegmentsOfCd(cwd, words);
      CdUnderstood(cwd);
      assert words == [] <==> args == [] && env == [];
      assert Intended(args, cwd, env) == [Simple([], ["cd", cwd]), Simple(env, args)];
      if words == [] { assert [[Marked("cd", false), WordOf(cwd)], words][1] == []; }
      if words != [] {
        ReadOneOrTwo([Marked("cd", false), WordOf(cwd)], words);
        assert commands.value[1] == ReadCommand(words);
      }
    }
  }
}
