/** Which characters the remote command line leaves unquoted, and that none of them means anything to the shell. */
module ShellCharacters {
  import opened Wrappers
  import opened ShellQuoting

  /** Letters and digits of the portable character set, by their ASCII codes. */
  predicate IsAlphanumeric(c: char) {
    65 <= c as int <= 90 || 97 <= c as int <= 122 || 48 <= c as int <= 57
  }

  lemma SafeCharacters(c: char)
    ensures IsSafeChar(c) <==> IsAlphanumeric(c) || c in {'_', '.', '/', ':', '=', '@', '%', '^', ',', '+', '-'}
    ensures IsLetter(c) || IsDigit(c) <==> IsAlphanumeric(c)
    ensures IsDigit(c) <==> 48 <= c as int <= 57
  {
  }

  /** A name is letters, digits and underscores, not starting with a digit. */
  lemma NameCharacters(s: string)
    ensures IsName(s) <==>
      s != "" && !(48 <= s[0] as int <= 57) && forall i :: 0 <= i < |s| ==> IsAlphanumeric(s[i]) || s[i] == '_'
  {
    hide IsLetter, IsDigit, IsAlphanumeric;
    forall i | 0 <= i < |s|
      ensures IsLetter(s[i]) || IsDigit(s[i]) <==> IsAlphanumeric(s[i])
      ensures IsDigit(s[i]) <==> 48 <= s[i] as int <= 57
    {
      SafeCharacters(s[i]);
    }
  }

  /**
   * What sections 2.2, 2.6 and 2.13 of the same standard give a meaning to outside quotes: operators,
   * blanks, quoting, expansions of tildes, parameters, commands and path names, and comments.
   */
  predicate IsSpecial(c: char) {
    || c in {'|', '&', ';', '<', '>', '(', ')', '$', '`', '\\', '"', '\'', ' ', '\t', '\n'}
    || c in {'*', '?', '[', ']', '#', '~', '!'} || c as int == 123 || c as int == 125
  }

  ghost predicate NothingSpecial(word: Word) {
    forall lit <- word :: !lit.quoted ==> !IsSpecial(lit.c)
  }

  lemma SafeIsNotSpecial(c: char)
    ensures IsSafeChar(c) ==> !IsSpecial(c)
  {
  }

  lemma MarkedNothingSpecial(text: string, quoted: bool)
    requires !quoted ==> forall i :: 0 <= i < |text| ==> IsSafeChar(text[i])
    ensures NothingSpecial(Marked(text, quoted))
  {
    hide IsSafeChar;
    forall lit <- Marked(text, quoted)
      ensures !lit.quoted ==> !IsSpecial(lit.c)
    {
      SafeIsNotSpecial(lit.c);
    }
  }

  lemma AssignmentNothingSpecial(binding: Binding)
    requires IsName(binding.key)
    ensures NothingSpecial(AssignmentWord(binding))
  {
    var key := binding.key + "=";
    assert forall i :: 0 <= i < |binding.key| ==> key[i] == binding.key[i];
    hide IsSafe;
    MarkedNothingSpecial(key, false);
    WordNothingSpecial(binding.value);
  }

  lemma WordNothingSpecial(arg: string)
    ensures NothingSpecial(WordOf(arg))
  {
    MarkedNothingSpecial(arg, !IsSafe(arg));
  }

  /** Whatever the caller passes, the shell expands nothing: every special character it reads is quoted. */
  lemma {:induction false} NothingExpands(args: seq<string>, cwd: string, env: seq<Binding>)
    requires forall binding <- env :: IsName(binding.key)
    ensures Tokenize(CommandText(args, cwd, env)).Some?
    ensures forall token <- Tokenize(CommandText(args, cwd, env)).value :: token.WordToken? ==> NothingSpecial(token.word)
  {
    hide Tokenize, CommandText, NothingSpecial, WordOf, AssignmentWord, IsName, Marked;
    TokensOfCommand(args, cwd, env);
    var words := AssignmentWords(env) + ArgWords(args);
    forall i | 0 <= i < |words|
      ensures NothingSpecial(words[i])
    {
      if i < |env| {
        assert env[i] in env;
        AssignmentNothingSpecial(env[i]);
      } else {
        WordNothingSpecial(args[i - |env|]);
      }
    }
    CdNothingSpecial();
    WordNothingSpecial(cwd);
  }

  lemma CdNothingSpecial()
    ensures NothingSpecial(Marked("cd", false))
  {
    MarkedNothingSpecial("cd", false);
  }
}
