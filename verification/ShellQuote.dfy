/** `_shq` and the shell that reads its result. */
module ShellQuote {
  import opened Outcomes

  const ESCAPED_QUOTE := "'\"'\"'"

  /** `str.replace("'", ...)`. */
  function Escape(s: string): string {
    if s == "" then ""
    else (if s[0] == '\'' then ESCAPED_QUOTE else [s[0]]) + Escape(s[1..])
  }

  /** `_shq`. */
  function Quote(s: string): string { "'" + Escape(s) + "'" }

  /** Where the reader is: outside quotes, in single quotes, or in double quotes. */
  datatype Mode = Bare | Single | Double

  const BLANKS := " \t"
  const ESCAPABLE := "$`\"\\\n"   // what a backslash escapes in double quotes
  const SPECIAL := "|&;<>()$`*?[#~=%\n"

  function Extend(word: Option<string>, c: char): Option<string> {
    Some((if word.Some? then word.value else "") + [c])
  }

  function Touch(word: Option<string>): Option<string> { if word.Some? then word else Some("") }

  function Flush(word: Option<string>): seq<string> { if word.Some? then [word.value] else [] }

  function Prepend(words: seq<string>, rest: Option<seq<string>>): Option<seq<string>> {
    if rest.Some? then Some(words + rest.value) else None
  }

  /** The words the shell reads, by sections 2.2.1 to 2.2.3 of the POSIX Shell Command
      Language (POSIX.1-2017).  `None`: a quote is left open, or an unquoted
      character means more than itself. */
  function Words(s: string, mode: Mode, word: Option<string>): Option<seq<string>>
    decreases |s|
  {
    if s == "" then (if mode == Bare then Some(Flush(word)) else None)
    else
      var c, rest := s[0], s[1..];
      match mode
      case Single =>
        if c == '\'' then Words(rest, Bare, word) else Words(rest, Single, Extend(word, c))
      case Double =>
        if c == '"' then Words(rest, Bare, word)
        else if c in "$`" then None
        else if c == '\\' && rest != "" && rest[0] in ESCAPABLE then
          Words(rest[1..], Double, if rest[0] == '\n' then word else Extend(word, rest[0]))
        else Words(rest, Double, Extend(word, c))
      case Bare =>
        if c in BLANKS then Prepend(Flush(word), Words(rest, Bare, None))
        else if c == '\'' then Words(rest, Single, Touch(word))
        else if c == '"' then Words(rest, Double, Touch(word))
        else if c == '\\' then
          if rest == "" then None
          else Words(rest[1..], Bare, if rest[0] == '\n' then word else Extend(word, rest[0]))
        else if c in SPECIAL then None
        else Words(rest, Bare, Extend(word, c))
  }

  function Read(s: string): Option<seq<string>> { Words(s, Bare, None) }

  /** The escape for one single quote: close, a quoted quote, and open again. */
  lemma ReadsEscapedQuote(rest: string, word: string)
    ensures Words(ESCAPED_QUOTE + rest, Single, Some(word)) == Words(rest, Single, Some(word + "'"))
  {
    assert (ESCAPED_QUOTE + rest)[1..] == "\"'\"'" + rest;
    assert ("\"'\"'" + rest)[1..] == "'\"'" + rest;
    assert ("'\"'" + rest)[1..] == "\"'" + rest;
    assert ("\"'" + rest)[1..] == "'" + rest;
    assert ("'" + rest)[1..] == rest;
    var w := Some(word + "'");
    calc {
      Words(ESCAPED_QUOTE + rest, Single, Some(word));
      Words("\"'\"'" + rest, Bare, Some(word));
      Words("'\"'" + rest, Double, Some(word));
      Words("\"'" + rest, Double, w);
      Words("'" + rest, Bare, w);
      Words(rest, Single, w);
    }
  }

  /** Inside single quotes, the escaped text reads as the text. */
  lemma {:induction false} ReadsEscaped(s: string, rest: string, word: string)
    ensures Words(Escape(s) + rest, Single, Some(word)) == Words(rest, Single, Some(word + s))
    decreases |s|
  {
    if s == "" {
      assert Escape(s) + rest == rest && word + s == word;
    } else {
      var tail := Escape(s[1..]) + rest;
      if s[0] == '\'' {
        assert Escape(s) + rest == ESCAPED_QUOTE + tail;
        ReadsEscapedQuote(tail, word);
      } else {
        assert Escape(s) + rest == [s[0]] + tail;
        assert ([s[0]] + tail)[1..] == tail;
      }
      ReadsEscaped(s[1..], rest, word + [s[0]]);
      assert word + [s[0]] + s[1..] == word + s;
    }
  }

  lemma ReadsQuoted(s: string, rest: string)
    ensures Words(Quote(s) + rest, Bare, None) == Words(rest, Bare, Some(s))
  {
    var inner := Escape(s) + ("'" + rest);
    assert Quote(s) + rest == "'" + inner;
    assert ("'" + inner)[1..] == inner;
    ReadsEscaped(s, "'" + rest, "");
    assert ("'" + rest)[1..] == rest;
    assert "" + s == s;
  }

  /** For every string, the shell reads its quotation as that one word. */
  lemma QuoteReadsBack(s: string)
    ensures Read(Quote(s)) == Some([s])
  {
    ReadsQuoted(s, "");
    assert Quote(s) + "" == Quote(s);
  }

  /** Quotations joined by spaces. */
  function Joined(words: seq<string>): string {
    if words == [] then ""
    else if |words| == 1 then Quote(words[0])
    else Quote(words[0]) + " " + Joined(words[1..])
  }

  /** A command line of quoted words reads back as the list of words. */
  lemma {:induction false} JoinedReadsBack(words: seq<string>)
    ensures Read(Joined(words)) == Some(words)
  {
    if |words| == 1 {
      QuoteReadsBack(words[0]);
      assert words == [words[0]];
    } else if words != [] {
      var rest := " " + Joined(words[1..]);
      assert Joined(words) == Quote(words[0]) + rest;
      ReadsQuoted(words[0], rest);
      assert rest[1..] == Joined(words[1..]);
      JoinedReadsBack(words[1..]);
      assert [words[0]] + words[1..] == words;
    }
  }
}
