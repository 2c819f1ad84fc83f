/** The TOML subset of Codex's config.toml (internal/automation/codex.go):
    comments, table headers, strings, string arrays, inline tables. */
module CodexSyntax {
  import opened Text
  import opened Json

  const NUL: char := 0 as char
  const QUOTES: set<char> := {'"', '\''}

  // ---- comments ----

  /** How much of s stripComment keeps, read with `quote` open (NUL: none). */
  function Kept(s: string, quote: char): (n: nat)
    ensures n <= |s|
    ensures n < |s| ==> s[n] == '#'
  {
    if s == [] then 0
    else if quote == NUL && s[0] == '#' then 0
    else if quote == NUL && s[0] in QUOTES then 1 + Kept(s[1..], s[0])
    else if quote == '"' && s[0] == '\\' then if |s| == 1 then 1 else 2 + Kept(s[2..], quote)
    else if s[0] == quote then 1 + Kept(s[1..], NUL)
    else 1 + Kept(s[1..], quote)
  }

  function StripComment(line: string): string {
    line[..Kept(line, NUL)]
  }

  /** A line as the reader sees it. */
  function Clean(line: string): string {
    TrimSpace(StripComment(line))
  }

  // ---- table headers ----

  function Before(s: string, c: char): string {
    s[..IndexOf(s, c)]
  }

  /** The dotted keys inside the brackets; None: a quote is not closed. */
  function Keys(inner: string, keys: seq<string>): Option<seq<string>>
    decreases |inner|
  {
    var t := TrimLeft(inner, {' ', '\t', '.'});
    if t == "" then Some(keys)
    else if t[0] in QUOTES then
      var end := IndexOf(t[1..], t[0]);
      if end == |t| - 1 then None else Keys(t[end + 2..], keys + [t[1..end + 1]])
    else
      var i := IndexOf(t, '.');
      Keys(if i < |t| then t[i + 1..] else "", keys + [TrimSpace(t[..i])])
  }

  /** The header test on what stands before the first '#', white space trimmed. */
  function Bracketed(text: string): Option<seq<string>> {
    if !HasPrefix(text, "[") || HasPrefix(text, "[[") || text[|text| - 1] != ']' then None
    else
      var inner := text[..|text| - 1];
      Keys(if HasPrefix(inner, "[") then inner[1..] else inner, [])
  }

  /** codexTable. */
  function Header(line: string): Option<seq<string>> {
    if !HasPrefix(line, "[") || HasPrefix(line, "[[") then None
    else
      var text := TrimSpace(Before(line, '#'));
      if text == "" || text[|text| - 1] != ']' then None
      else
        var inner := text[..|text| - 1];
        Keys(if HasPrefix(inner, "[") then inner[1..] else inner, [])
  }

  lemma {:induction false} TrimLeftBefore(s: string)
    ensures TrimLeft(Before(s, '#'), SPACES) == Before(TrimLeft(s, SPACES), '#')
    decreases |s|
  {
    if s != [] && s[0] in SPACES {
      TrimLeftBefore(s[1..]);
      assert Before(s, '#') == [s[0]] + Before(s[1..], '#');
      assert Before(s, '#')[1..] == Before(s[1..], '#');
    }
  }

  lemma BeforeDropsSpace(s: string)
    requires s != [] && s[|s| - 1] in SPACES
    ensures TrimRight(Before(s, '#'), SPACES) == TrimRight(Before(s[..|s| - 1], '#'), SPACES)
  {
    var t := s[..|s| - 1];
    var i := IndexOf(s, '#');
    if i < |s| {
      assert i < |t| && t[i] == '#';
      assert s[..i] == t[..i];
      IndexAt(t[..i], '#', t[i + 1..]);
      assert t == t[..i] + ['#'] + t[i + 1..];
    } else {
      assert s[..|s|] == s;
      assert forall k | 0 <= k < |t| :: t[k] == s[k];
      IndexAbsent(t, '#');
      assert t[..|t|] == t;
    }
  }

  lemma {:induction false} TrimRightBefore(s: string)
    ensures TrimRight(Before(TrimRight(s, SPACES), '#'), SPACES) == TrimRight(Before(s, '#'), SPACES)
    decreases |s|
  {
    if s != [] && s[|s| - 1] in SPACES {
      BeforeDropsSpace(s);
      TrimRightBefore(s[..|s| - 1]);
    }
  }

  /** The text before the first '#', trimmed, of a line and of the line trimmed. */
  lemma TrimmedBefore(s: string)
    ensures TrimSpace(Before(TrimSpace(s), '#')) == TrimSpace(Before(s, '#'))
    ensures var b := Before(TrimSpace(s), '#'); b == [] || (b[0] == TrimSpace(s)[0] && b[0] !in SPACES)
  {
    hide IndexOf;
    var y := TrimLeft(s, SPACES);
    TrimLeftBefore(s);
    TrimRightBefore(y);
    var b := Before(TrimSpace(s), '#');
    assert b == [] || b[0] == TrimSpace(s)[0] == y[0];
    assert TrimLeft(b, SPACES) == b;
  }

  /** Only what stands before the first '#' decides whether a line is a header. */
  lemma HeaderBefore(s: string)
    ensures Header(TrimSpace(s)) == Bracketed(TrimSpace(Before(s, '#')))
  {
    hide Keys, IndexOf, TrimSpace;
    TrimmedBefore(s);
    BracketsBefore(TrimSpace(s));
  }

  lemma BracketsBefore(t: string)
    requires var b := Before(t, '#'); b == [] || (b[0] == t[0] && b[0] !in SPACES)
    ensures Header(t) == Bracketed(TrimSpace(Before(t, '#')))
  {
    hide Keys, TrimRight;
    var b := Before(t, '#');
    var u := TrimSpace(b);
    assert TrimLeft(b, SPACES) == b;
    if b == [] {
      assert u == [] by { NothingTrimmed(); }
      assert !HasPrefix(t, "[");
    } else {
      FirstKept(b);
      if HasPrefix(t, "[[") { assert b[..2] == t[..2]; SecondKept(b); }
      if HasPrefix(u, "[[") { UntrimmedPrefix(b); assert u[..2] == b[..2] == t[..2]; }
    }
  }

  lemma NothingTrimmed()
    ensures TrimSpace("") == ""
  {
  }

  lemma UntrimmedPrefix(b: string)
    ensures var r := TrimRight(b, SPACES); r == b[..|r|]
  {
  }

  lemma FirstKept(b: string)
    requires b != [] && b[0] !in SPACES
    ensures TrimRight(b, SPACES) != []
    ensures TrimRight(b, SPACES)[0] == b[0]
  {
    if |b| > 1 && b[|b| - 1] in SPACES { FirstKept(b[..|b| - 1]); }
  }

  lemma SecondKept(b: string)
    requires |b| >= 2 && b[1] !in SPACES
    ensures |TrimRight(b, SPACES)| >= 2
    ensures TrimRight(b, SPACES)[..2] == b[..2]
  {
    if |b| > 2 && b[|b| - 1] in SPACES { SecondKept(b[..|b| - 1]); }
  }

  /** codexTable answers the same on a raw line (the remover) and on the line
      without its comment (the reader). */
  lemma HeaderIgnoresComment(line: string)
    ensures Header(TrimSpace(line)) == Header(Clean(line))
  {
    var r := StripComment(line);
    var p := IndexOf(line, '#');
    assert r == line[..|r|];
    if |r| < |line| { assert p <= |r|; }
    assert Before(r, '#') == Before(line, '#') by {
      assert line[..p] == r[..p];
      if p < |r| {
        IndexAt(line[..p], '#', r[p + 1..]);
        assert r == line[..p] + ['#'] + r[p + 1..];
      } else {
        assert r == line[..p];
        IndexAbsent(r, '#');
      }
    }
    HeaderBefore(line);
    HeaderBefore(r);
  }

  // ---- strings ----

  function HexDigit(n: nat): char
    requires n < 16
  {
    if n < 10 then ('0' as int + n) as char else ('a' as int + n - 10) as char
  }

  function HexValue(c: char): Option<nat> {
    if '0' <= c <= '9' then Some(c as int - '0' as int)
    else if 'a' <= c <= 'f' then Some(c as int - 'a' as int + 10)
    else if 'A' <= c <= 'F' then Some(c as int - 'A' as int + 10)
    else None
  }

  /** The letter of a character's one-letter escape (NUL: it has none). */
  function Letter(c: char): char {
    match c
    case '"' => '"'
    case '\\' => '\\'
    case '\n' => 'n'
    case '\r' => 'r'
    case '\t' => 't'
    case _ => match c as int case 7 => 'a' case 8 => 'b' case 11 => 'v' case 12 => 'f' case _ => NUL
  }

  /** The character a one-letter escape stands for. */
  function Unletter(c: char): Option<char> {
    match c
    case '"' => Some('"')
    case '\\' => Some('\\')
    case 'n' => Some('\n')
    case 'r' => Some('\r')
    case 't' => Some('\t')
    case 'a' => Some(7 as char)
    case 'b' => Some(8 as char)
    case 'v' => Some(11 as char)
    case 'f' => Some(12 as char)
    case _ => None
  }

  function EscapeChar(c: char): string {
    if Letter(c) != NUL then ['\\', Letter(c)]
    else if c < ' ' || c as int == 127 then ['\\', 'x', HexDigit(c as int / 16), HexDigit(c as int % 16)]
    else [c]
  }

  function Escape(s: string): string {
    if s == "" then "" else EscapeChar(s[0]) + Escape(s[1..])
  }

  /** strconv.Quote. */
  function Quote(s: string): string {
    "\"" + Escape(s) + "\""
  }

  function Cons(c: char, s: Option<string>): Option<string> {
    match s case None => None case Some(t) => Some([c] + t)
  }

  /** strconv.Unquote of what stands between two double quotes. */
  function Unescape(s: string): Option<string> {
    if s == "" then Some("")
    else if s[0] == '"' || s[0] == '\n' then None
    else if s[0] != '\\' then Cons(s[0], Unescape(s[1..]))
    else if |s| >= 2 && Unletter(s[1]).Some? then Cons(Unletter(s[1]).value, Unescape(s[2..]))
    else if |s| >= 4 && s[1] == 'x' && HexValue(s[2]).Some? && HexValue(s[3]).Some? then
      Cons((16 * HexValue(s[2]).value + HexValue(s[3]).value) as char, Unescape(s[4..]))
    else None
  }

  /** Where the first double quote not escaped stands in s, or |s|. */
  function Closing(s: string): (i: nat)
    ensures i <= |s|
    ensures i < |s| ==> s[i] == '"'
  {
    if s == "" || s[0] == '"' then 0
    else if s[0] == '\\' then if |s| == 1 then 1 else 2 + Closing(s[2..])
    else 1 + Closing(s[1..])
  }

  function ReadDouble(t: string): (r: Option<(string, string)>)
    requires t != ""
    ensures r.Some? ==> |r.value.1| < |t|
  {
    var i := 1 + Closing(t[1..]);
    if i == |t| then None
    else match Unescape(t[1..i]) case None => None case Some(v) => Some((v, t[i + 1..]))
  }

  /** codexString: the string at the start of s and what follows it. */
  function ReadString(s: string): (r: Option<(string, string)>)
    ensures r.Some? ==> |r.value.1| < |s|
  {
    var t := TrimSpace(s);
    if t == "" then None
    else if t[0] == '"' then ReadDouble(t)
    else if t[0] == '\'' then
      var end := IndexOf(t[1..], '\'');
      if end == |t| - 1 then None else Some((t[1..end + 1], t[end + 2..]))
    else None
  }

  // ---- values ----

  function ReadItems(s: string, out: seq<Json>): Option<Json>
    decreases |s|
  {
    var rest := TrimLeft(s, {' ', '\t', '\r', '\n', ','});
    if rest == "" || rest[0] == ']' then Some(Arr(out))
    else
      match ReadString(rest)
      case None => None
      case Some((v, r)) => ReadItems(r, out + [Str(v)])
  }

  function ReadKey(rest: string): (r: Option<(string, string)>)
    requires rest != ""
    ensures r.Some? ==> |r.value.1| <= |rest|
  {
    if rest[0] in QUOTES then ReadString(rest)
    else
      var i := IndexOf(rest, '=');
      if i == |rest| then None else Some((TrimSpace(rest[..i]), rest[i..]))
  }

  function ReadFields(s: string, out: map<string, Json>): Option<Json>
    decreases |s|
  {
    var rest := TrimLeft(s, {' ', '\t', ','});
    if rest == "" || rest[0] == '}' then Some(Obj(out))
    else
      match ReadKey(rest)
      case None => None
      case Some((key, r)) =>
        var r := TrimLeft(r, {' ', '\t'});
        if !HasPrefix(r, "=") then None
        else
          match ReadString(r[1..])
          case None => None
          case Some((v, r')) => ReadFields(r', out[key := Str(v)])
  }

  /** codexValue. */
  function ReadValue(s: string): Option<Json> {
    var t := TrimSpace(s);
    if t == "" then None
    else if t[0] in QUOTES then
      match ReadString(t) case None => None case Some((v, _)) => Some(Str(v))
    else if t[0] == '[' then ReadItems(t[1..], [])
    else if t[0] == '{' then ReadFields(t[1..], map[])
    else None
  }

  // ---- what Quote writes is read back ----

  lemma LetterRead(c: char)
    ensures Letter(c) != NUL ==> Unletter(Letter(c)) == Some(c) && Letter(c) != '\n'
    ensures Letter(c) == NUL ==> c != '"' && c != '\\' && c != '\n'
  {
  }

  lemma HexRead(n: nat)
    requires n < 256
    ensures HexValue(HexDigit(n / 16)) == Some(n / 16) && HexValue(HexDigit(n % 16)) == Some(n % 16)
    ensures HexDigit(n / 16) !in {'"', '\\', '\n'} && HexDigit(n % 16) !in {'"', '\\', '\n'}
  {
  }

  predicate Hex(c: char) {
    Letter(c) == NUL && (c < ' ' || c as int == 127)
  }

  lemma UnescapeChar(c: char, s: string)
    ensures Unescape(EscapeChar(c) + s) == Cons(c, Unescape(s))
  {
    var t := EscapeChar(c) + s;
    LetterRead(c);
    if Letter(c) != NUL {
      assert t[2..] == s && t[1] == Letter(c);
    } else if Hex(c) {
      HexRead(c as int);
      assert t[4..] == s && t[1] == 'x';
      assert t[2] == HexDigit(c as int / 16) && t[3] == HexDigit(c as int % 16);
    } else {
      assert t[1..] == s;
    }
  }

  lemma PlainChar(c: char, s: string)
    requires c != '"' && c != '\\'
    ensures Closing([c] + s) == 1 + Closing(s)
    ensures Kept([c] + s, '"') == 1 + Kept(s, '"')
  {
    assert ([c] + s)[1..] == s;
  }

  lemma PairChar(c: char, s: string)
    ensures Closing(['\\', c] + s) == 2 + Closing(s)
    ensures Kept(['\\', c] + s, '"') == 2 + Kept(s, '"')
  {
    assert (['\\', c] + s)[2..] == s;
  }

  lemma CharScanned(c: char, s: string)
    ensures Closing(EscapeChar(c) + s) == |EscapeChar(c)| + Closing(s)
    ensures Kept(EscapeChar(c) + s, '"') == |EscapeChar(c)| + Kept(s, '"')
  {
    LetterRead(c);
    if Letter(c) != NUL {
      PairChar(Letter(c), s);
    } else if Hex(c) {
      HexRead(c as int);
      var hi, lo := HexDigit(c as int / 16), HexDigit(c as int % 16);
      PlainChar(lo, s);
      PlainChar(hi, [lo] + s);
      PairChar('x', [hi] + ([lo] + s));
      assert EscapeChar(c) + s == ['\\', 'x'] + ([hi] + ([lo] + s));
    } else {
      PlainChar(c, s);
    }
  }

  lemma {:induction false} EscapeUnescape(u: string)
    ensures Unescape(Escape(u)) == Some(u)
  {
    if u != "" {
      EscapeUnescape(u[1..]);
      UnescapeChar(u[0], Escape(u[1..]));
      assert u == [u[0]] + u[1..];
    }
  }

  lemma QuoteScanned(s: string)
    ensures Closing("\"" + s) == 0 && Kept("\"" + s, '"') == 1 + Kept(s, NUL)
  {
    assert ("\"" + s)[1..] == s;
  }

  lemma {:induction false} EscapeScanned(u: string, s: string)
    ensures Closing(Escape(u) + ("\"" + s)) == |Escape(u)|
    ensures Kept(Escape(u) + ("\"" + s), '"') == |Escape(u)| + 1 + Kept(s, NUL)
  {
    hide EscapeChar, Closing, Kept;
    var q := "\"" + s;
    if u == "" {
      assert Escape(u) + q == q;
      QuoteScanned(s);
    } else {
      EscapeScanned(u[1..], s);
      CharScanned(u[0], Escape(u[1..]) + q);
      assert Escape(u) + q == EscapeChar(u[0]) + (Escape(u[1..]) + q);
    }
  }

  lemma {:induction false} QuoteOneLine(u: string)
    ensures OneLine(Escape(u)) && OneLine(Quote(u))
  {
    if u != "" {
      QuoteOneLine(u[1..]);
      LetterRead(u[0]);
      if Hex(u[0]) { HexRead(u[0] as int); }
    }
  }

  lemma QuoteReadDouble(u: string, s: string)
    ensures ReadDouble(Quote(u) + s) == Some((u, s))
  {
    hide Escape, Closing, Unescape, Kept;
    var t, e := Quote(u) + s, Escape(u);
    EscapeUnescape(u);
    EscapeScanned(u, s);
    assert t[1..] == e + ("\"" + s);
    assert t[1..1 + |e|] == e;
    assert t[|e| + 2..] == s;
  }

  lemma {:induction false} TrimRightAfter(a: string, s: string)
    requires a != "" && a[|a| - 1] !in SPACES
    ensures TrimRight(a + s, SPACES) == a + TrimRight(s, SPACES)
  {
    if s == "" {
      assert a + s == a && a + "" == a;
    } else {
      assert (a + s)[|a + s| - 1] == s[|s| - 1];
      if s[|s| - 1] in SPACES {
        assert (a + s)[..|a + s| - 1] == a + s[..|s| - 1];
        TrimRightAfter(a, s[..|s| - 1]);
      }
    }
  }

  /** A quoted string is read back whole, whatever follows it; what follows is
      left over, white space at its end trimmed. */
  lemma QuoteRead(u: string, s: string)
    ensures ReadString(Quote(u) + s) == Some((u, TrimRight(s, SPACES)))
  {
    hide Escape;
    var q := Quote(u);
    assert (q + s)[0] == '"' && q[|q| - 1] == '"';
    TrimRightAfter(q, s);
    assert TrimLeft(q + s, SPACES) == q + s;
    assert TrimSpace(q + s) == q + TrimRight(s, SPACES);
    assert (q + TrimRight(s, SPACES))[0] == '"';
    QuoteReadDouble(u, TrimRight(s, SPACES));
  }

  lemma {:induction false} KeptPlain(p: string, s: string)
    requires forall c | c in p :: c !in QUOTES && c != '#'
    ensures Kept(p + s, NUL) == |p| + Kept(s, NUL)
  {
    if p == "" {
      assert p + s == s;
    } else {
      assert (p + s)[1..] == p[1..] + s;
      assert p[0] in p && forall c | c in p[1..] :: c in p;
      KeptPlain(p[1..], s);
    }
  }

  lemma KeptQuote(u: string, s: string)
    ensures Kept(Quote(u) + s, NUL) == |Quote(u)| + Kept(s, NUL)
  {
    EscapeScanned(u, s);
    assert (Quote(u) + s)[1..] == Escape(u) + ("\"" + s);
  }

  /** The items of an array as the writer joins them. */
  function Quoted(args: seq<string>): seq<string> {
    seq(|args|, i requires 0 <= i < |args| => Quote(args[i]))
  }

  function Strs(args: seq<string>): seq<Json> {
    seq(|args|, i requires 0 <= i < |args| => Str(args[i]))
  }
}
