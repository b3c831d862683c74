/** Shell quoting of script arguments (PHP's escapeshellarg on POSIX) and a
    reader of shell words, used to state what the quoting achieves. */
module Shell {
  import opened Wrappers
  import opened Text

  /** The inside of a single-quoted word: every ' becomes '\'' (close the
      quotes, an escaped quote, reopen the quotes). */
  function QuoteBody(s: string): string
  {
    if s == [] then []
    else (if s[0] == '\'' then "'\\''" else [s[0]]) + QuoteBody(s[1..])
  }

  /** escapeshellarg: `s` as one single-quoted shell word. */
  function Escape(s: string): string
  {
    "'" + QuoteBody(s) + "'"
  }

  function EscapeAll(args: seq<string>): (r: seq<string>)
    ensures |r| == |args|
    ensures forall i :: 0 <= i < |args| ==> r[i] == Escape(args[i])
  {
    if args == [] then [] else [Escape(args[0])] + EscapeAll(args[1..])
  }

  /** The escaped arguments joined by single spaces, as passed to a script. */
  function Arguments(args: seq<string>): string
  {
    Join(EscapeAll(args), " ")
  }

  predicate IsBlank(c: char) {
    c == ' ' || c == '\t'
  }

  /** How a POSIX shell splits `w` into words, for text made of blanks,
      backslash escapes and single-quoted parts; None when the text ends
      inside quotes or after a lone backslash. */
  function Words(w: string): Option<seq<string>>
    decreases |w|, 2
  {
    if w == [] then Some([])
    else if IsBlank(w[0]) then Words(w[1..])
    else Word(w, [])
  }

  /** Reads the rest of a word begun with `acc`, then the words after it. */
  function Word(w: string, acc: string): Option<seq<string>>
    decreases |w|, 1
  {
    if w == [] then Some([acc])
    else if IsBlank(w[0]) then
      match Words(w[1..])
      case None => None
      case Some(ws) => Some([acc] + ws)
    else if w[0] == '\'' then Quoted(w[1..], acc)
    else if w[0] == '\\' then
      if |w| < 2 then None else Word(w[2..], acc + [w[1]])
    else Word(w[1..], acc + [w[0]])
  }

  /** Reads inside single quotes, where every character stands for itself. */
  function Quoted(w: string, acc: string): Option<seq<string>>
    decreases |w|, 0
  {
    if w == [] then None
    else if w[0] == '\'' then Word(w[1..], acc)
    else Quoted(w[1..], acc + [w[0]])
  }

  /** Inside quotes, the quoted body of `s` and its closing quote read back
      as `s` itself. */
  lemma {:induction false} QuotedBodyReadsBack(s: string, rest: string, acc: string)
    ensures Quoted(QuoteBody(s) + "'" + rest, acc) == Word(rest, acc + s)
    decreases |s|
  {
    if s == [] {
      assert QuoteBody(s) + "'" + rest == "'" + rest;
      assert acc + s == acc;
    } else {
      var tail := QuoteBody(s[1..]) + "'" + rest;
      QuotedBodyReadsBack(s[1..], rest, acc + [s[0]]);
      assert acc + [s[0]] + s[1..] == acc + s;
      if s[0] == '\'' {
        assert QuoteBody(s) + "'" + rest == "'\\''" + tail;
        EscapedQuoteReadsBack(tail, acc);
      } else {
        var w := [s[0]] + tail;
        assert QuoteBody(s) + "'" + rest == w;
        assert w[1..] == tail;
      }
    }
  }

  /** Inside quotes, the escaped quote '\'' closes the quotes, adds a
      quote to the word and reopens them. */
  lemma EscapedQuoteReadsBack(tail: string, acc: string)
    ensures Quoted("'\\''" + tail, acc) == Quoted(tail, acc + ['\''])
  {
    var w := "'\\''" + tail;
    assert w[0] == '\'' && w[1..] == "\\''" + tail;
    assert w[1..][0] == '\\' && w[1..][1] == '\'' && w[1..][2..] == "'" + tail;
    assert ("'" + tail)[0] == '\'' && ("'" + tail)[1..] == tail;
    assert Quoted(w, acc) == Word(w[1..], acc);
    assert Word(w[1..], acc) == Word("'" + tail, acc + ['\'']);
  }

  /** An escaped argument followed by `rest` reads back as that argument
      followed by the words of `rest`. */
  lemma EscapedWord(s: string, rest: string)
    ensures Word(Escape(s) + rest, []) == Word(rest, s)
  {
    var w := Escape(s) + rest;
    assert w == "'" + (QuoteBody(s) + "'" + rest);
    assert w[1..] == QuoteBody(s) + "'" + rest;
    QuotedBodyReadsBack(s, rest, []);
    assert [] + s == s;
  }

  /** escapeshellarg round trip: the shell reads an escaped string back as
      exactly that string, as a single word. */
  lemma EscapeReadsBack(s: string)
    ensures Words(Escape(s)) == Some([s])
  {
    EscapedWord(s, []);
    assert Escape(s) + [] == Escape(s);
  }

  /** The script receives exactly the arguments it was given: the joined,
      escaped arguments split back into the original list. */
  lemma {:induction false} ArgumentsReadBack(args: seq<string>)
    ensures Words(Arguments(args)) == Some(args)
  {
    if args == [] {
    } else if |args| == 1 {
      assert EscapeAll(args) == [Escape(args[0])];
      assert Arguments(args) == Escape(args[0]);
      EscapeReadsBack(args[0]);
      assert [args[0]] == args;
    } else {
      var e := EscapeAll(args);
      assert e[1..] == EscapeAll(args[1..]);
      var rest := Arguments(args[1..]);
      assert Arguments(args) == Escape(args[0]) + (" " + rest);
      EscapedWord(args[0], " " + rest);
      assert (" " + rest)[1..] == rest;
      ArgumentsReadBack(args[1..]);
      assert [args[0]] + args[1..] == args;
    }
  }
}
