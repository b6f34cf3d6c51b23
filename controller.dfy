/**
 * The pure helpers of the slide-show controller: which directory entries are
 * pictures, and how a call into the renderer is spelled as a JavaScript
 * command string.
 */
module Controller {
  import opened Wrappers
  import opened Text
  import opened Sequences

  /**
   * A directory entry as the file lister reports it: the parsed file name
   * (`name` without and `ext` with its dot), the resolved `path`, and whether
   * the entry is a regular file.
   */
  datatype FileEntry = FileEntry(name: string, ext: string, path: string, isFile: bool)

  /** The upper-cased extensions that mark a picture. */
  const IMG_EXT: seq<string> := [".JPG", ".PNG", ".GIF"]

  /** A regular file whose upper-cased extension is on the allow-list. */
  predicate IsImage(file: FileEntry)
  {
    file.isFile && Upper(file.ext) in IMG_EXT
  }

  /** The spellings of one extension letter that upper-case to `upper`. */
  predicate LetterOf(c: char, upper: char)
    requires 'A' <= upper <= 'Z'
  {
    c == upper || c == (upper as int + 32) as char || (upper == 'I' && c == 'ı')
  }

  /** `ext` is a dot followed by the three letters of `word`, in any letter case. */
  predicate SpelledAs(ext: string, word: string)
    requires |word| == 3 && forall i :: 0 <= i < 3 ==> 'A' <= word[i] <= 'Z'
  {
    |ext| == 4 && ext[0] == '.' && LetterOf(ext[1], word[0]) && LetterOf(ext[2], word[1]) && LetterOf(ext[3], word[2])
  }

  /**
   * The classification is case-insensitive: an entry is a picture exactly when
   * it is a regular file with extension jpg, png or gif in any mix of letter
   * cases (and, for gif, with a dotless i).
   */
  lemma ImageIffPictureExtension(file: FileEntry)
    ensures IsImage(file) <==>
      file.isFile && (SpelledAs(file.ext, "JPG") || SpelledAs(file.ext, "PNG") || SpelledAs(file.ext, "GIF"))
  {
    var u := Upper(file.ext);
    if |file.ext| == 4 {
      assert u == [UpperChar(file.ext[0]), UpperChar(file.ext[1]), UpperChar(file.ext[2]), UpperChar(file.ext[3])];
    }
  }

  /** A directory (or any other non-file entry) is never a picture, whatever its name. */
  lemma NonFileIsNeverImage(file: FileEntry)
    requires !file.isFile
    ensures !IsImage(file)
  {
  }

  /**
   * `arg.replaceAll("\\\\", "\\\\\\\\")`: every pair of backslashes, taken
   * left to right without overlap, becomes four backslashes.
   */
  function EscapePairs(s: string): string
  {
    if |s| >= 2 && s[0] == '\\' && s[1] == '\\' then "\\\\\\\\" + EscapePairs(s[2..])
    else if s == [] then []
    else [s[0]] + EscapePairs(s[1..])
  }

  /** The number of backslash pairs `EscapePairs` replaces. */
  function PairCount(s: string): nat
  {
    if |s| >= 2 && s[0] == '\\' && s[1] == '\\' then 1 + PairCount(s[2..])
    else if s == [] then 0
    else PairCount(s[1..])
  }

  /** `replaceAndWrap`: the pair-escaped argument between single quotes. */
  function ReplaceAndWrap(arg: string): (r: string)
    ensures |r| >= 2 && r[0] == '\'' && r[|r| - 1] == '\''
    ensures r[1..|r| - 1] == EscapePairs(arg)
  {
    "'" + EscapePairs(arg) + "'"
  }

  /** Each replaced pair adds two characters, the quotes add two more. */
  lemma {:induction false} ReplaceAndWrapLength(s: string)
    ensures |ReplaceAndWrap(s)| == |s| + 2 + 2 * PairCount(s)
  {
    EscapePairsLength(s);
  }

  lemma {:induction false} EscapePairsLength(s: string)
    ensures |EscapePairs(s)| == |s| + 2 * PairCount(s)
  {
    if |s| >= 2 && s[0] == '\\' && s[1] == '\\' {
      EscapePairsLength(s[2..]);
    } else if s != [] {
      EscapePairsLength(s[1..]);
    }
  }

  /** A string with no two adjacent backslashes, such as one whose backslashes are all lone, is left as it is. */
  lemma {:induction false} NoPairLeftUnchanged(s: string)
    requires forall i :: 0 <= i < |s| - 1 ==> !(s[i] == '\\' && s[i + 1] == '\\')
    ensures EscapePairs(s) == s
  {
    if s != [] {
      assert !(|s| >= 2 && s[0] == '\\' && s[1] == '\\');
      NoPairLeftUnchanged(s[1..]);
    }
  }

  /** The inverse rewriting: every run of four backslashes, left to right, back to two. */
  function CollapsePairs(t: string): string
  {
    if |t| >= 4 && t[..4] == "\\\\\\\\" then "\\\\" + CollapsePairs(t[4..])
    else if t == [] then []
    else [t[0]] + CollapsePairs(t[1..])
  }

  lemma {:induction false} EscapePairsKeepsHead(s: string)
    requires s != [] && s[0] != '\\'
    ensures EscapePairs(s) != [] && EscapePairs(s)[0] == s[0]
  {
  }

  lemma CollapseQuad(u: string)
    ensures CollapsePairs("\\\\\\\\" + u) == "\\\\" + CollapsePairs(u)
  {
    var t := "\\\\\\\\" + u;
    assert t[..4] == "\\\\\\\\" && t[4..] == u;
  }

  lemma CollapseOther(c: char, u: string)
    requires !(|[c] + u| >= 4 && ([c] + u)[..4] == "\\\\\\\\")
    ensures CollapsePairs([c] + u) == [c] + CollapsePairs(u)
  {
    assert ([c] + u)[1..] == u;
  }

  lemma PairSplit(s: string)
    requires |s| >= 2 && s[0] == '\\' && s[1] == '\\'
    ensures s == "\\\\" + s[2..]
  {
  }

  /** No information is lost: collapsing the escaped pairs gives the argument back. */
  lemma {:induction false} CollapseUndoesEscape(s: string)
    ensures CollapsePairs(EscapePairs(s)) == s
  {
    if |s| >= 2 && s[0] == '\\' && s[1] == '\\' {
      CollapseUndoesEscape(s[2..]);
      CollapseQuad(EscapePairs(s[2..]));
      PairSplit(s);
    } else if s != [] {
      CollapseUndoesEscape(s[1..]);
      var u := EscapePairs(s[1..]);
      var t := [s[0]] + u;
      if |s| >= 2 && s[0] == '\\' {
        EscapePairsKeepsHead(s[1..]);
      }
      if |t| >= 4 {
        assert t[..4][0] == s[0] && t[..4][1] == t[1];
        assert s[0] == '\\' ==> t[1] == s[1] != '\\';
      }
      CollapseOther(s[0], u);
      ConsSplit(s);
    }
  }

  /** An argument of `execute`: a string, or a number (the only other kind the controller passes). */
  datatype Arg = Str(text: string) | Num(n: int)

  /** How `execute` writes one argument: strings quoted by `replaceAndWrap`, numbers in decimal. */
  function RenderArg(arg: Arg): string
  {
    match arg
    case Str(text) => ReplaceAndWrap(text)
    case Num(n) => IntToString(n)
  }

  /** `parts.join(sep)`. */
  function JoinWith(parts: seq<string>, sep: string): string
  {
    if parts == [] then []
    else if |parts| == 1 then parts[0]
    else parts[0] + sep + JoinWith(parts[1..], sep)
  }

  /** Joining one more part adds the separator and that part at the end. */
  lemma {:induction false} JoinWithSnoc(parts: seq<string>, p: string, sep: string)
    requires parts != []
    ensures JoinWith(parts + [p], sep) == JoinWith(parts, sep) + sep + p
  {
    TailAppend(parts, [p]);
    if |parts| > 1 {
      JoinWithSnoc(parts[1..], p, sep);
      Assoc(parts[0] + sep, JoinWith(parts[1..], sep), sep + p);
      Assoc(JoinWith(parts[1..], sep), sep, p);
      Assoc(parts[0] + sep + JoinWith(parts[1..], sep), sep, p);
    } else {
      assert parts[1..] + [p] == [p];
    }
  }

  /** The command string `execute(fn, ...args)` hands to the renderer. */
  function ExecuteCommand(fn: string, args: seq<Arg>): (command: string)
    ensures |command| >= |fn| + 3
    ensures command[..|fn| + 1] == fn + "("
    ensures command[|command| - 2..] == ");"
  {
    fn + "(" + JoinWith(seq(|args|, i requires 0 <= i < |args| => RenderArg(args[i])), ", ") + ");"
  }

  /** Without arguments the call is `fn();`. */
  lemma ExecuteNoArgs(fn: string)
    ensures ExecuteCommand(fn, []) == fn + "();"
  {
  }

  /** One argument of either kind is written alone between the parentheses. */
  lemma ExecuteOneArg(fn: string, a: Arg)
    ensures ExecuteCommand(fn, [a]) == fn + "(" + RenderArg(a) + ");"
  {
    assert seq(1, i requires 0 <= i < 1 => RenderArg([a][i])) == [RenderArg(a)];
  }

  /**
   * For any number of arguments, one more argument extends the argument list
   * by `", "` and that argument as `execute` renders it, before the closing `);`.
   */
  lemma ExecuteAppendArg(fn: string, args: seq<Arg>, a: Arg)
    requires args != []
    ensures var before := ExecuteCommand(fn, args);
      ExecuteCommand(fn, args + [a]) == before[..|before| - 2] + ", " + RenderArg(a) + ");"
  {
    var more := args + [a];
    var parts := seq(|args|, i requires 0 <= i < |args| => RenderArg(args[i]));
    var moreParts := seq(|more|, i requires 0 <= i < |more| => RenderArg(more[i]));
    assert moreParts == parts + [RenderArg(a)];
    JoinWithSnoc(parts, RenderArg(a), ", ");
    var head := fn + "(" + JoinWith(parts, ", ");
    var before := ExecuteCommand(fn, args);
    assert before == head + ");";
    assert before[..|before| - 2] == head;
  }

  /** A single string argument arrives as one quoted, pair-escaped literal. */
  lemma ExecuteOneString(fn: string, text: string)
    ensures ExecuteCommand(fn, [Str(text)]) == fn + "('" + EscapePairs(text) + "');"
  {
    assert seq(1, i requires 0 <= i < 1 => RenderArg([Str(text)][i])) == [ReplaceAndWrap(text)];
  }

  /** Arguments are separated by a comma and a space; numbers are written in decimal and strings quoted. */
  lemma ExecuteTwoArgs(fn: string, n: int, text: string)
    ensures ExecuteCommand(fn, [Num(n), Str(text)]) == fn + "(" + (IntToString(n) + ", " + ReplaceAndWrap(text)) + ");"
  {
    var args := [Num(n), Str(text)];
    var parts := seq(|args|, i requires 0 <= i < |args| => RenderArg(args[i]));
    var joined := IntToString(n) + ", " + ReplaceAndWrap(text);
    assert JoinWith(parts, ", ") == joined by {
      assert parts == [IntToString(n), ReplaceAndWrap(text)];
      assert parts[1..] == [ReplaceAndWrap(text)];
    }
  }

  /**
   * The text a JavaScript single-quoted string literal body denotes, for the
   * escapes `\\`, `\'`, `\"`, `\n`, `\r` and `\t`. `None` when the body
   * does not read as one literal: an unescaped quote closes the literal early,
   * a raw line break or a trailing backslash leaves it unterminated. Other
   * escape sequences are not modelled and also give `None`.
   */
  function DecodeBody(b: string): Option<string>
  {
    if b == [] then Some([])
    else if b[0] == '\'' || b[0] == '\n' || b[0] == '\r' then None
    else if b[0] == '\\' then
      if |b| < 2 then None
      else
        var c := b[1];
        var unescaped :=
          if c == '\\' || c == '\'' || c == '"' then Some(c)
          else if c == 'n' then Some('\n')
          else if c == 'r' then Some('\r')
          else if c == 't' then Some('\t')
          else None;
        match (unescaped, DecodeBody(b[2..]))
        case (Some(u), Some(rest)) => Some([u] + rest)
        case _ => None
    else
      match DecodeBody(b[1..])
      case Some(rest) => Some([b[0]] + rest)
      case None => None
  }

  /** The value of a whole single-quoted literal token. */
  function LiteralValue(token: string): Option<string>
  {
    if |token| >= 2 && token[0] == '\'' && token[|token| - 1] == '\'' then DecodeBody(token[1..|token| - 1])
    else None
  }

  /**
   * As written, `replaceAndWrap` does not give back its argument once the
   * renderer parses the command: a single quote (a file named `Mum's.jpg`)
   * closes the literal early.
   */
  lemma ApostropheClosesLiteral()
    ensures LiteralValue(ReplaceAndWrap("Mum's")) == None
  {
    var s := "Mum's";
    assert s[1..] == "um's" && s[1..][1..] == "m's" && s[1..][1..][1..] == "'s";
    assert EscapePairs("'s") == "'s" by {
      assert "'s"[1..] == "s" && "s"[1..] == "";
    }
    assert EscapePairs(s) == s;
    assert ReplaceAndWrap(s)[1..6] == s;
    assert DecodeBody("'s") == None;
  }

  /** The backslash of a JSON-escaped double quote is consumed as an escape, so `a\"b` reads back as `a"b`. */
  lemma EscapedQuoteLosesBackslash()
    ensures LiteralValue(ReplaceAndWrap("a\\\"b")) == Some("a\"b")
  {
    var s := "a\\\"b";
    assert s[1..] == "\\\"b" && s[1..][1..] == "\"b" && s[1..][1..][1..] == "b" && "b"[1..] == "";
    assert EscapePairs(s) == s;
    assert ReplaceAndWrap(s)[1..5] == s;
    assert s[1..][2..] == "b";
    assert DecodeBody("b") == Some("b");
    assert DecodeBody(s[1..]) == Some("\"b");
    assert [s[0]] + "\"b" == "a\"b";
    assert DecodeBody(s) == Some("a\"b");
    assert ReplaceAndWrap(s)[1..|ReplaceAndWrap(s)| - 1] == s;
  }

  /** One character as it must appear inside a single-quoted literal to denote itself. */
  function EscapeChar(c: char): string
  {
    if c == '\\' then "\\\\"
    else if c == '\'' then "\\'"
    else if c == '\n' then "\\n"
    else if c == '\r' then "\\r"
    else [c]
  }

  function EscapeAll(s: string): string
  {
    if s == [] then [] else EscapeChar(s[0]) + EscapeAll(s[1..])
  }

  /** The intended quoting: every backslash, quote and line break escaped. */
  function QuoteArg(arg: string): string
  {
    "'" + EscapeAll(arg) + "'"
  }

  /** The intended quoting always reads back as exactly its argument. */
  lemma {:induction false} QuoteArgRoundTrip(arg: string)
    ensures LiteralValue(QuoteArg(arg)) == Some(arg)
  {
    EscapeAllDecodes(arg);
    assert QuoteArg(arg)[1..|QuoteArg(arg)| - 1] == EscapeAll(arg);
  }

  lemma {:induction false} EscapeAllDecodes(s: string)
    ensures DecodeBody(EscapeAll(s)) == Some(s)
  {
    if s != [] {
      EscapeAllDecodes(s[1..]);
      var e := EscapeAll(s);
      assert e == EscapeChar(s[0]) + EscapeAll(s[1..]);
      var c := s[0];
      if c == '\\' || c == '\'' || c == '\n' || c == '\r' {
        assert e[2..] == EscapeAll(s[1..]);
      } else {
        assert e[1..] == EscapeAll(s[1..]);
      }
      assert s == [c] + s[1..];
    }
  }
}
