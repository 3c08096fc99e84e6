/** The extractor that finds a JSON object inside free text
    (internal/pokemon/identifier.go, extractJSONObject). */
module JsonExtract {
  import opened Options
  import opened Text

  // ---------------------------------------------------------------- the scanner

  /** The scanner after the first brace: nesting depth and where it is inside a string. */
  datatype Scan = Scan(depth: int, inString: bool, escape: bool)

  const OPENED := Scan(1, false, false)

  function Next(st: Scan, ch: char): Scan {
    if st.inString then
      if st.escape then st.(escape := false)
      else if ch == '\\' then st.(escape := true)
      else if ch == '"' then st.(inString := false)
      else st
    else if ch == '"' then st.(inString := true)
    else if ch == '{' then st.(depth := st.depth + 1)
    else if ch == '}' then st.(depth := st.depth - 1)
    else st
  }

  predicate Closes(st: Scan, ch: char) {
    !st.inString && ch == '}' && st.depth == 1
  }

  /** How many characters the scanner reads until the depth drops to zero, if it ever does. */
  function CloseAt(st: Scan, s: string): Option<nat>
    decreases |s|
  {
    if s == "" then None
    else if Closes(st, s[0]) then Some(1)
    else Shift(1, CloseAt(Next(st, s[0]), s[1..]))
  }

  function Shift(k: nat, o: Option<nat>): Option<nat> {
    if o.Some? then Some(o.value + k) else None
  }

  function FirstBrace(s: string): nat {
    IndexOf(s, '{')
  }

  /** The index just past the block opened by the first brace, if that block is ever closed. */
  function BlockEnd(s: string): Option<nat> {
    var b := FirstBrace(s);
    if b == |s| then None else Shift(b + 1, CloseAt(OPENED, s[b + 1..]))
  }

  function ScanObject(s: string): string {
    BlockEndRange(s);
    var end := BlockEnd(s);
    if end.Some? then TrimSpace(s[FirstBrace(s)..end.value]) else ""
  }

  lemma BlockEndRange(s: string)
    ensures BlockEnd(s).Some? ==> FirstBrace(s) < BlockEnd(s).value <= |s|
  {
    var b := FirstBrace(s);
    if b < |s| { CloseAtRange(OPENED, s[b + 1..]); }
  }

  lemma {:induction false} CloseAtRange(st: Scan, s: string)
    ensures CloseAt(st, s).Some? ==> 1 <= CloseAt(st, s).value <= |s|
    decreases |s|
  {
    if s != "" && !Closes(st, s[0]) { CloseAtRange(Next(st, s[0]), s[1..]); }
  }

  // ---------------------------------------------------------------- fences

  const FENCE := "```"

  function LastFence(s: string): int {
    if |s| < 3 then -1
    else if s[|s| - 3..] == FENCE then |s| - 3
    else LastFence(s[..|s| - 1])
  }

  function FirstNewline(s: string): nat {
    IndexOf(s, '\n')
  }

  function DropLine(s: string): string {
    var i := FirstNewline(s);
    if i < |s| then TrimSpace(s[i + 1..]) else s
  }

  lemma {:induction false} LastFenceRange(s: string)
    ensures LastFence(s) == -1 || 0 <= LastFence(s) <= |s| - 3
  {
    if |s| >= 3 && s[|s| - 3..] != FENCE { LastFenceRange(s[..|s| - 1]); }
  }

  function Unfence(text: string): string {
    var t := TrimSpace(text);
    var end := LastFence(t);
    if HasPrefix(t, FENCE) && 3 < end <= |t| then DropLine(TrimSpace(t[3..end])) else t
  }

  function Extract(text: string): string {
    ScanObject(Unfence(text))
  }

  method ExtractJsonObject(text: string) returns (r: string)
    ensures r == Extract(text)
  {
    var trimmed := TrimSpace(text);
    if HasPrefix(trimmed, FENCE) {
      var end := LastFence(trimmed);
      LastFenceRange(trimmed);
      if end > 3 {
        trimmed := TrimSpace(trimmed[3..end]);
        var nl := FirstNewline(trimmed);
        if nl < |trimmed| {
          trimmed := TrimSpace(trimmed[nl + 1..]);
        }
      }
    }
    assert trimmed == Unfence(text);
    r := ScanLoop(trimmed);
  }

  method ScanLoop(s: string) returns (r: string)
    ensures r == ScanObject(s)
  {
    var start, st := -1, Scan(0, false, false);
    for i := 0 to |s|
      invariant start == -1 || start == FirstBrace(s) < i
      invariant start == -1 ==> i <= FirstBrace(s)
      invariant start >= 0 ==> BlockEnd(s) == Shift(i, CloseAt(st, s[i..]))
    {
      var ch := s[i];
      assert s[i..][0] == ch && s[i..][1..] == s[i + 1..];
      IndexOfFirst(s, '{', i);
      if start == -1 {
        if ch == '{' {
          start, st := i, OPENED;
        }
        continue;
      }
      var next, closed := StepScan(st, ch);
      if closed {
        return TrimSpace(s[start..i + 1]);
      }
      st := next;
    }
    return "";
  }

  /** The body of the scanning loop once a block was opened. */
  method StepScan(st: Scan, ch: char) returns (next: Scan, closed: bool)
    ensures closed == Closes(st, ch)
    ensures !closed ==> next == Next(st, ch)
  {
    next, closed := st, false;
    if st.inString {
      if st.escape {
        next := st.(escape := false);
        return;
      }
      if ch == '\\' {
        next := st.(escape := true);
      } else if ch == '"' {
        next := st.(inString := false);
      }
      return;
    }
    if ch == '"' {
      next := st.(inString := true);
    } else if ch == '{' {
      next := st.(depth := st.depth + 1);
    } else if ch == '}' {
      next := st.(depth := st.depth - 1);
      closed := next.depth == 0;
    }
  }

  // ---------------------------------------------------------------- balanced blocks

  datatype Quote = Outside | Inside | Escaping

  /** Where a text ends with respect to string literals. */
  function QuoteState(s: string): Quote {
    if s == "" then Outside
    else
      var q, ch := QuoteState(s[..|s| - 1]), s[|s| - 1];
      match q
      case Outside => if ch == '"' then Inside else Outside
      case Inside => if ch == '\\' then Escaping else if ch == '"' then Outside else Inside
      case Escaping => Inside
  }

  /** Opening minus closing braces outside string literals. */
  function Surplus(s: string): int {
    if s == "" then 0
    else
      var before, ch := s[..|s| - 1], s[|s| - 1];
      Surplus(before) + if !QuoteState(before).Outside? then 0 else if ch == '{' then 1 else if ch == '}' then -1
          else 0
  }

  /** A non-empty text that ends outside strings with as many closing as opening braces. */
  predicate Balanced(s: string) {
    s != "" && QuoteState(s).Outside? && Surplus(s) == 0
  }

  predicate BalancedTo(t: string, b: nat, k: nat)
    requires b <= k <= |t|
  {
    Balanced(t[b..k])
  }

  /** `end` is the first position from `i` on where the text from `b` is balanced. */
  ghost predicate FirstBalanced(t: string, b: nat, i: nat, end: Option<nat>)
    requires b <= i <= |t|
  {
    match end
    case None => forall k :: i <= k <= |t| ==> !BalancedTo(t, b, k)
    case Some(n) => i <= n <= |t| && BalancedTo(t, b, n) && forall k :: i <= k < n ==> !BalancedTo(t, b, k)
  }

  /** The scanner state after a non-empty text that starts with the first brace. */
  function StateOf(s: string): Scan {
    Scan(Surplus(s), !QuoteState(s).Outside?, QuoteState(s).Escaping?)
  }

  lemma StateNext(s: string, ch: char)
    ensures StateOf(s + [ch]) == Next(StateOf(s), ch)
    ensures Balanced(s + [ch]) && Surplus(s) > 0 ==> Closes(StateOf(s), ch)
    ensures Closes(StateOf(s), ch) ==> Balanced(s + [ch])
  {
    assert (s + [ch])[..|s|] == s;
  }

  /** From the state of a text that is not yet balanced, the scanner stops at the shortest
      balanced extension, and stops at all exactly when there is one. */
  lemma {:induction false} ShortestBalanced(t: string, b: nat, i: nat, st: Scan)
    requires b < i <= |t| && Surplus(t[b..i]) > 0 && st == StateOf(t[b..i])
    ensures FirstBalanced(t, b, i, Shift(i, CloseAt(st, t[i..])))
    decreases |t| - i
  {
    assert !BalancedTo(t, b, i);
    if i < |t| {
      var ch := t[i];
      StateNext(t[b..i], ch);
      assert t[b..i + 1] == t[b..i] + [ch];
      assert t[i..][1..] == t[i + 1..];
      if Closes(st, ch) {
        assert BalancedTo(t, b, i + 1);
      } else {
        ShortestBalanced(t, b, i + 1, Next(st, ch));
      }
    }
  }

  /** The block end is the end of the shortest balanced text from the first brace. */
  lemma BlockShortest(t: string)
    ensures FirstBalanced(t, FirstBrace(t), FirstBrace(t), BlockEnd(t))
  {
    var b := FirstBrace(t);
    assert !BalancedTo(t, b, b) by { assert t[b..b] == ""; }
    if b < |t| {
      OpenState(t, b);
      ShortestBalanced(t, b, b + 1, OPENED);
    }
  }

  lemma OpenState(t: string, b: nat)
    requires b < |t| && t[b] == '{'
    ensures StateOf(t[b..b + 1]) == OPENED
  {
    assert t[b..b + 1] == "" + ['{'];
    StateNext("", '{');
  }

  /** The shortest balanced block from the first brace of the text on, or empty if there is none. */
  ghost predicate FoundIn(t: string, r: string) {
    var b := FirstBrace(t);
    && (r == "" <==> FirstBalanced(t, b, b, None))
    && (r != "" ==> FirstBalanced(t, b, b, Some(b + |r|)) && r == t[b..b + |r|])
  }

  /** For every input the result is the shortest string-aware balanced block that starts at the
      first brace of the unfenced text, and it is empty exactly when there is no such block. */
  lemma ExtractShortest(text: string)
    ensures FoundIn(Unfence(text), Extract(text))
  {
    var t := Unfence(text);
    BlockShortest(t);
    ScanValue(t);
  }

  lemma ScanValue(t: string)
    ensures BlockEnd(t).None? ==> ScanObject(t) == ""
    ensures BlockEnd(t).Some? ==>
      FirstBrace(t) < BlockEnd(t).value <= |t| && ScanObject(t) == t[FirstBrace(t)..BlockEnd(t).value]
  {
    BlockEndRange(t);
    if BlockEnd(t).Some? {
      BlockEndsInBrace(t);
      TrimSpaceFacts(t[FirstBrace(t)..BlockEnd(t).value]);
    }
  }

  lemma BlockEndsInBrace(t: string)
    requires BlockEnd(t).Some?
    ensures FirstBrace(t) < BlockEnd(t).value <= |t| && t[BlockEnd(t).value - 1] == '}'
  {
    var b := FirstBrace(t);
    CloseAtBrace(OPENED, t[b + 1..]);
  }

  lemma {:induction false} CloseAtBrace(st: Scan, s: string)
    requires CloseAt(st, s).Some?
    ensures 1 <= CloseAt(st, s).value <= |s| && s[CloseAt(st, s).value - 1] == '}'
    decreases |s|
  {
    if !Closes(st, s[0]) { CloseAtBrace(Next(st, s[0]), s[1..]); }
  }

  // ---------------------------------------------------------------- printed JSON

  /** A character of a string literal (section 7 of RFC 8259). */
  datatype JChar = Plain(c: char) | Escaped(c: char) | Unicode(hex: string)

  predicate ValidChar(j: JChar) {
    match j
    case Plain(c) => c != '"' && c != '\\' && c >= ' '
    case Escaped(c) => c in "\"\\/bfnrt"
    case Unicode(hex) => |hex| == 4 && forall h :: h in hex ==> h in "0123456789abcdefABCDEF"
  }

  /** JSON values with the white space of one way of writing them (sections 2 to 7). */
  datatype Json =
    | Literal(text: string)
    | Number(text: string)
    | Str(chars: seq<JChar>)
    | Arr(blank: string, items: Items)
    | Obj(blank: string, members: Members)

  datatype Items = NoItems | Item(before: string, value: Json, after: string, rest: Items)

  datatype Members =
    | NoMembers
    | Member(before: string, key: seq<JChar>, mid: string, gap: string, value: Json, after: string, rest: Members)

  predicate Blank(s: string) {
    forall c :: c in s ==> c in " \t\n\r"
  }

  predicate ValidChars(cs: seq<JChar>) {
    forall c :: c in cs ==> ValidChar(c)
  }

  predicate Valid(v: Json) {
    match v
    case Literal(text) => text == "true" || text == "false" || text == "null"
    case Number(text) => text != "" && forall c :: c in text ==> c in "0123456789+-.eE"
    case Str(chars) => ValidChars(chars)
    case Arr(blank, items) => Blank(blank) && ValidItems(items)
    case Obj(blank, members) => Blank(blank) && ValidMembers(members)
  }

  predicate ValidItems(i: Items) {
    match i
    case NoItems => true
    case Item(before, value, after, rest) => Blank(before) && Valid(value) && Blank(after) && ValidItems(rest)
  }

  predicate ValidMembers(m: Members) {
    match m
    case NoMembers => true
    case Member(before, key, mid, gap, value, after, rest) =>
      Blank(before) && ValidChars(key) && Blank(mid) && Blank(gap) && Valid(value) && Blank(after)
          && ValidMembers(rest)
  }

  function PrintChar(j: JChar): string {
    match j
    case Plain(c) => [c]
    case Escaped(c) => ['\\', c]
    case Unicode(hex) => "\\u" + hex
  }

  function PrintChars(cs: seq<JChar>): string {
    if cs == [] then "" else PrintChar(cs[0]) + PrintChars(cs[1..])
  }

  function PrintString(cs: seq<JChar>): string {
    "\"" + PrintChars(cs) + "\""
  }

  function Print(v: Json): string {
    match v
    case Literal(text) => text
    case Number(text) => text
    case Str(chars) => PrintString(chars)
    case Arr(blank, items) => "[" + blank + PrintItems(items) + "]"
    case Obj(blank, members) => "{" + blank + PrintMembers(members) + "}"
  }

  function PrintItems(i: Items): string {
    match i
    case NoItems => ""
    case Item(before, value, after, rest) =>
      before + Print(value) + after + (if rest.NoItems? then "" else "," + PrintItems(rest))
  }

  function PrintMembers(m: Members): string {
    match m
    case NoMembers => ""
    case Member(before, key, mid, gap, value, after, rest) =>
      before + PrintString(key) + mid + ":" + gap + Print(value) + after
      + (if rest.NoMembers? then "" else "," + PrintMembers(rest))
  }

  /** Before `rest`, the scanner passes over `w` without closing and without changing state. */
  predicate TransparentAt(d: int, w: string, rest: string) {
    CloseAt(Scan(d, false, false), w + rest) == Shift(|w|, CloseAt(Scan(d, false, false), rest))
  }

  ghost predicate Transparent(d: int, w: string) {
    forall rest :: TransparentAt(d, w, rest)
  }

  lemma Joined(d: int, a: string, b: string)
    requires Transparent(d, a) && Transparent(d, b)
    ensures Transparent(d, a + b)
  {
    forall rest ensures TransparentAt(d, a + b, rest) {
      assert TransparentAt(d, a, b + rest) && TransparentAt(d, b, rest);
      assert a + b + rest == a + (b + rest);
    }
  }

  /** Text without quotes and braces is transparent. */
  lemma PlainText(d: int, w: string)
    requires forall c :: c in w ==> c != '"' && c != '{' && c != '}'
    ensures Transparent(d, w)
  {
    forall rest ensures TransparentAt(d, w, rest) {
      PlainTextAt(d, w, rest);
    }
  }

  lemma {:induction false} PlainTextAt(d: int, w: string, rest: string)
    requires forall c :: c in w ==> c != '"' && c != '{' && c != '}'
    ensures CloseAt(Scan(d, false, false), w + rest) == Shift(|w|, CloseAt(Scan(d, false, false), rest))
    decreases |w|
  {
    if w == "" {
      assert w + rest == rest;
    } else {
      assert (w + rest)[1..] == w[1..] + rest;
      assert w[0] in w && forall c :: c in w[1..] ==> c in w;
      PlainTextAt(d, w[1..], rest);
    }
  }

  /** Inside a string the scanner passes over the text. */
  predicate Skipped(d: int, w: string, rest: string) {
    CloseAt(Scan(d, true, false), w + rest) == Shift(|w|, CloseAt(Scan(d, true, false), rest))
  }

  lemma SkippedJoin(d: int, a: string, b: string, rest: string)
    requires Skipped(d, b, rest) && Skipped(d, a, b + rest)
    ensures Skipped(d, a + b, rest)
  {
    assert a + b + rest == a + (b + rest);
  }

  /** Inside a string the scanner passes over each printed character. */
  lemma {:induction false} CharsAt(d: int, cs: seq<JChar>, rest: string)
    requires ValidChars(cs)
    ensures Skipped(d, PrintChars(cs), rest)
    decreases |cs|
  {
    if cs == [] {
      assert PrintChars(cs) + rest == rest;
    } else {
      assert cs[0] in cs;
      CharsAt(d, cs[1..], rest);
      CharAt(d, cs[0], PrintChars(cs[1..]) + rest);
      SkippedJoin(d, PrintChar(cs[0]), PrintChars(cs[1..]), rest);
    }
  }

  lemma CharAt(d: int, j: JChar, tail: string)
    requires ValidChar(j)
    ensures Skipped(d, PrintChar(j), tail)
  {
    match j
    case Plain(c) => assert ([c] + tail)[1..] == tail;
    case Escaped(c) =>
      assert (['\\', c] + tail)[1..] == [c] + tail && ([c] + tail)[1..] == tail;
    case Unicode(hex) =>
      assert ("\\u" + hex + tail)[1..] == ['u'] + (hex + tail) && (['u'] + (hex + tail))[1..] == hex + tail;
      HexAt(d, hex, tail);
  }

  lemma {:induction false} HexAt(d: int, hex: string, tail: string)
    requires forall h :: h in hex ==> h in "0123456789abcdefABCDEF"
    ensures Skipped(d, hex, tail)
    decreases |hex|
  {
    if hex == "" {
      assert hex + tail == tail;
    } else {
      assert (hex + tail)[1..] == hex[1..] + tail;
      assert hex[0] in hex;
      HexAt(d, hex[1..], tail);
    }
  }

  lemma StringTransparent(d: int, cs: seq<JChar>)
    requires ValidChars(cs)
    ensures Transparent(d, PrintString(cs))
  {
    forall rest ensures TransparentAt(d, PrintString(cs), rest) {
      var body := PrintChars(cs) + ("\"" + rest);
      assert PrintString(cs) + rest == "\"" + body;
      assert ("\"" + body)[1..] == body && ("\"" + rest)[1..] == rest;
      CharsAt(d, cs, "\"" + rest);
    }
  }

  /** Bracketing transparent text in braces, one level deeper, is transparent. */
  lemma BracesTransparent(d: int, inner: string)
    requires d >= 1 && Transparent(d + 1, inner)
    ensures Transparent(d, "{" + inner + "}")
  {
    forall rest ensures TransparentAt(d, "{" + inner + "}", rest) {
      BracesAt(d, inner, rest);
    }
  }

  lemma BracesAt(d: int, inner: string, rest: string)
    requires d >= 1 && TransparentAt(d + 1, inner, "}" + rest)
    ensures TransparentAt(d, "{" + inner + "}", rest)
  {
    var tail, outer, deeper := inner + ("}" + rest), Scan(d, false, false), Scan(d + 1, false, false);
    Associate("{", inner, "}", rest);
    assert CloseAt(outer, "{" + tail) == Shift(1, CloseAt(deeper, tail));
    assert CloseAt(deeper, tail) == Shift(|inner|, CloseAt(deeper, "}" + rest));
    assert CloseAt(deeper, "}" + rest) == Shift(1, CloseAt(outer, rest));
  }

  lemma Associate(a: string, b: string, c: string, d: string)
    ensures a + b + c + d == a + (b + (c + d))
  {}

  lemma BlankTransparent(d: int, s: string)
    requires Blank(s)
    ensures Transparent(d, s)
  {
    PlainText(d, s);
  }

  lemma {:induction false} ValueTransparent(d: int, v: Json)
    requires d >= 1 && Valid(v)
    ensures Transparent(d, Print(v))
    decreases v
  {
    match v
    case Literal(text) => LiteralTransparent(d, text);
    case Number(text) => NumberTransparent(d, text);
    case Str(chars) => StringTransparent(d, chars);
    case Arr(blank, items) =>
      ItemsTransparent(d, items);
      BracketsTransparent(d, blank, PrintItems(items));
    case Obj(blank, members) =>
      MembersTransparent(d + 1, members);
      ObjectTransparent(d, blank, PrintMembers(members));
  }

  lemma ObjectTransparent(d: int, blank: string, inner: string)
    requires d >= 1 && Blank(blank) && Transparent(d + 1, inner)
    ensures Transparent(d, "{" + blank + inner + "}")
  {
    BlankTransparent(d + 1, blank);
    Joined(d + 1, blank, inner);
    BracesTransparent(d, blank + inner);
    assert "{" + blank + inner + "}" == "{" + (blank + inner) + "}";
  }

  lemma LiteralTransparent(d: int, text: string)
    requires text == "true" || text == "false" || text == "null"
    ensures Transparent(d, text)
  {
    PlainText(d, text);
  }

  lemma NumberTransparent(d: int, text: string)
    requires forall c :: c in text ==> c in "0123456789+-.eE"
    ensures Transparent(d, text)
  {
    PlainText(d, text);
  }

  lemma BracketsTransparent(d: int, blank: string, inner: string)
    requires Blank(blank) && Transparent(d, inner)
    ensures Transparent(d, "[" + blank + inner + "]")
  {
    PlainText(d, "[");
    PlainText(d, "]");
    BlankTransparent(d, blank);
    Joined(d, "[", blank);
    Joined(d, "[" + blank, inner);
    Joined(d, "[" + blank + inner, "]");
  }

  lemma {:induction false} ItemsTransparent(d: int, i: Items)
    requires d >= 1 && ValidItems(i)
    ensures Transparent(d, PrintItems(i))
    decreases i
  {
    match i
    case NoItems => PlainText(d, "");
    case Item(before, value, after, rest) =>
      ValueTransparent(d, value);
      ItemsTransparent(d, rest);
      BlankTransparent(d, before);
      BlankTransparent(d, after);
      PlainText(d, ",");
      PlainText(d, "");
      Joined(d, ",", PrintItems(rest));
      Joined(d, before, Print(value));
      Joined(d, before + Print(value), after);
      Joined(d, before + Print(value) + after, if rest.NoItems? then "" else "," + PrintItems(rest));
  }

  lemma {:induction false} MembersTransparent(d: int, m: Members)
    requires d >= 1 && ValidMembers(m)
    ensures Transparent(d, PrintMembers(m))
    decreases m
  {
    match m
    case NoMembers => PlainText(d, "");
    case Member(before, key, mid, gap, value, after, rest) =>
      ValueTransparent(d, value);
      MembersTransparent(d, rest);
      StringTransparent(d, key);
      BlankTransparent(d, before);
      BlankTransparent(d, mid);
      BlankTransparent(d, gap);
      BlankTransparent(d, after);
      PlainText(d, ",");
      PlainText(d, ":");
      PlainText(d, "");
      Joined(d, ",", PrintMembers(rest));
      Joined(d, before, PrintString(key));
      Joined(d, before + PrintString(key), mid);
      Joined(d, before + PrintString(key) + mid, ":");
      Joined(d, before + PrintString(key) + mid + ":", gap);
      Joined(d, before + PrintString(key) + mid + ":" + gap, Print(value));
      Joined(d, before + PrintString(key) + mid + ":" + gap + Print(value), after);
      Joined(d, before + PrintString(key) + mid + ":" + gap + Print(value) + after,
             if rest.NoMembers? then "" else "," + PrintMembers(rest));
  }

  // ---------------------------------------------------------------- round trips

  lemma BlockOfBraces(p: string, inner: string, s: string)
    requires '{' !in p && Transparent(1, inner)
    ensures FirstBrace(p + "{" + inner + "}" + s) == |p|
    ensures BlockEnd(p + "{" + inner + "}" + s) == Some(|p| + |inner| + 2)
  {
    var t := p + "{" + inner + "}" + s;
    assert t == p + ("{" + inner + "}" + s);
    IndexOfAppend(p, '{', "{" + inner + "}" + s);
    assert t[|p| + 1..] == inner + ("}" + s);
    assert TransparentAt(1, inner, "}" + s);
    assert CloseAt(OPENED, "}" + s) == Some(1);
  }

  /** Scanning brace-free text followed by a printed object returns the object. */
  lemma ScanFindsObject(p: string, o: Json, s: string)
    requires '{' !in p && o.Obj? && Valid(o)
    ensures ScanObject(p + Print(o) + s) == Print(o)
  {
    var inner := o.blank + PrintMembers(o.members);
    MembersTransparent(1, o.members);
    BlankTransparent(1, o.blank);
    Joined(1, o.blank, PrintMembers(o.members));
    BlockOfBraces(p, inner, s);
    assert Print(o) == "{" + inner + "}";
    var t := p + Print(o) + s;
    assert t == p + "{" + inner + "}" + s;
    assert t[|p|..|p| + |inner| + 2] == Print(o);
    PrintedTrimmed(o);
    TrimSpaceFacts(Print(o));
  }

  lemma TrimAround(p: string, o: string, s: string)
    requires o != "" && Trimmed(o)
    ensures TrimSpace(p + o + s) == TrimLeft(p) + o + TrimRight(s)
  {
    assert p + o + s == p + (o + s);
    TrimLeftAppend(p, o + s);
    var left := TrimLeft(p) + o;
    assert TrimLeft(p) + (o + s) == left + s;
    assert left[|left| - 1] == o[|o| - 1];
    TrimRightAppend(left, s);
  }

  lemma PrintedTrimmed(o: Json)
    requires o.Obj?
    ensures Print(o) != "" && Trimmed(Print(o))
  {
    assert Print(o)[0] == '{' && Print(o)[|Print(o)| - 1] == '}';
  }

  /** The extractor undoes printing: from unfenced text made of brace-free text, a printed
      object and anything at all, it returns exactly the object. */
  lemma ExtractUndoesPrinting(p: string, o: Json, s: string)
    requires '{' !in p && o.Obj? && Valid(o)
    requires !HasPrefix(TrimSpace(p + Print(o) + s), FENCE)
    ensures Extract(p + Print(o) + s) == Print(o)
  {
    PrintedTrimmed(o);
    TrimAround(p, Print(o), s);
    LeftPart(p);
    ScanFindsObject(TrimLeft(p), o, TrimRight(s));
  }

  lemma LeftPart(p: string)
    ensures forall c :: c in TrimLeft(p) ==> c in p
  {
    TrimLeftFacts(p);
  }

  // ---------------------------------------------------------------- fenced text

  /** No fence starts behind a closing one, not even inside it. */
  predicate NoLaterFence(after: string) {
    LastFence(FENCE + after) == 0
  }

  /** Text in front moves the last fence and nothing else. */
  lemma {:induction false} LastFenceAppend(x: string, u: string)
    requires LastFence(u) >= 0
    ensures LastFence(x + u) == |x| + LastFence(u)
    decreases |u|
  {
    var t := x + u;
    assert t[|t| - 3..] == u[|u| - 3..];
    if u[|u| - 3..] != FENCE {
      assert t[..|t| - 1] == x + u[..|u| - 1];
      LastFenceAppend(x, u[..|u| - 1]);
    }
  }

  lemma {:induction false} NoLaterFenceTrimmed(after: string)
    requires NoLaterFence(after)
    ensures NoLaterFence(TrimRight(after))
    decreases |after|
  {
    if after != "" && IsSpace(after[|after| - 1]) {
      var n, u := |after| - 1, FENCE + after;
      assert u[..|u| - 1] == FENCE + after[..n];
      NoLaterFenceTrimmed(after[..n]);
    }
  }

  predicate FenceAt(s: string, i: nat) {
    i + 3 <= |s| && s[i] == '`' && s[i + 1] == '`' && s[i + 2] == '`'
  }

  lemma FenceAtEnd(s: string)
    requires |s| >= 3
    ensures s[|s| - 3..] == FENCE <==> FenceAt(s, |s| - 3)
  {
    var u, k := s[|s| - 3..], |s| - 3;
    assert u[0] == s[k] && u[1] == s[k + 1] && u[2] == s[k + 2];
    if FenceAt(s, k) { assert u == FENCE; }
  }

  /** The last fence is a fence, and none starts behind it. */
  lemma {:induction false} LastFenceMeans(s: string)
    ensures LastFence(s) >= 0 ==> FenceAt(s, LastFence(s))
    ensures forall i: nat :: FenceAt(s, i) ==> i <= LastFence(s)
  {
    if |s| >= 3 {
      var n := |s| - 1;
      FenceAtEnd(s);
      if s[|s| - 3..] != FENCE {
        LastFenceMeans(s[..n]);
        forall i: nat | FenceAt(s, i) ensures i <= LastFence(s) { assert FenceAt(s[..n], i); }
      }
    }
  }

  /** Text that does not start with a fence, or has no fence behind its fourth character, is searched
      as it is, without the white space around it. */
  lemma OpenFence(a: string, t: string, b: string)
    requires AllSpace(a) && AllSpace(b) && Trimmed(t)
    requires FENCE <= t ==> forall i: nat :: FenceAt(t, i) ==> i <= 3
    ensures FoundIn(t, Extract(a + t + b))
  {
    TrimPadded(a, t, b);
    LastFenceMeans(t);
    ExtractShortest(a + t + b);
  }

  lemma SearchedBody(a: string, t: string, b: string, end: nat)
    requires AllSpace(a) && AllSpace(b) && Trimmed(t) && FENCE <= t && end > 3
    requires FenceAt(t, end) && forall i: nat :: FenceAt(t, i) ==> i <= end
    ensures Unfence(a + t + b) == DropLine(TrimSpace(t[3..end]))
  {
    TrimPadded(a, t, b);
    LastFenceMeans(t);
  }

  /** Otherwise the text between the first and the last fence is searched, without its first line if
      it has more than one. */
  lemma ClosedFence(a: string, t: string, b: string, end: nat, line: string, more: string)
    requires AllSpace(a) && AllSpace(b) && Trimmed(t) && FENCE <= t && end > 3
    requires FenceAt(t, end) && forall i: nat :: FenceAt(t, i) ==> i <= end
    requires '\n' !in line
    ensures TrimSpace(t[3..end]) == line ==> FoundIn(line, Extract(a + t + b))
    ensures TrimSpace(t[3..end]) == line + "\n" + more ==> FoundIn(TrimSpace(more), Extract(a + t + b))
  {
    SearchedBody(a, t, b, end);
    ExtractShortest(a + t + b);
    DropTag(line, more);
    OneLine(line);
  }

  lemma OneLine(line: string)
    requires '\n' !in line
    ensures DropLine(line) == line
  {
    IndexOfAppend(line, '\n', "");
    assert line + "" == line;
  }

  /** A fence around a body: an info string on the opening line, then the body, then the closing
      fence, then other text. */
  function Fenced(info: string, body: string, after: string): string {
    FENCE + info + "\n" + body + FENCE + after
  }

  lemma UnfenceAt(x: string, after: string, t: string)
    requires FENCE <= x && |x| > 3 && NoLaterFence(after) && t == x + FENCE + after
    ensures FENCE <= t && LastFence(t) == |x| && t[3..|x|] == x[3..]
  {
    assert t == x + (FENCE + after);
    LastFenceAppend(x, FENCE + after);
  }

  lemma TrimFenced(x: string, after: string)
    requires x != "" && x[0] == '`'
    ensures TrimSpace(x + FENCE + after) == x + FENCE + TrimRight(after)
  {
    var open := x + FENCE;
    assert (open + after)[0] == '`' && open[|open| - 1] == '`' && !IsSpace('`');
    TrimRightAppend(open, after);
  }

  lemma UnfenceFenced(info: string, body: string, after: string)
    requires NoLaterFence(after)
    ensures Unfence(Fenced(info, body, after)) == DropLine(TrimSpace(info + "\n" + body))
  {
    var x := FENCE + info + "\n" + body;
    assert x[0] == '`' && x[3..] == info + "\n" + body;
    TrimFenced(x, after);
    NoLaterFenceTrimmed(after);
    UnfenceAt(x, TrimRight(after), x + FENCE + TrimRight(after));
  }

  lemma DropTag(info: string, rest: string)
    requires '\n' !in info
    ensures DropLine(info + "\n" + rest) == TrimSpace(rest)
  {
    FirstNewlineAt(info, rest);
    assert (info + "\n" + rest)[|info| + 1..] == rest;
  }

  lemma TrimTagged(head: string, o: string, s: string)
    requires head != "" && !IsSpace(head[0]) && o != "" && Trimmed(o)
    ensures TrimSpace(head + o + s) == head + o + TrimRight(s)
  {
    TrimAround(head, o, s);
    assert TrimLeft(head) == head;
  }

  lemma TaggedBody(info: string, p: string, o: string, s: string, after: string)
    requires NoLaterFence(after) && o != "" && Trimmed(o)
    requires '\n' !in info && Trimmed(info) && info != ""
    ensures Unfence(Fenced(info, p + o + s, after)) == TrimSpace(p + o + TrimRight(s))
  {
    var line := info + "\n";
    UnfenceFenced(info, p + o + s, after);
    Regroup(line, p, o, s);
    TrimTagged(line + p, o, s);
    Regroup(line, p, o, TrimRight(s));
    DropTag(info, p + o + TrimRight(s));
  }

  lemma Regroup(a: string, b: string, c: string, d: string)
    ensures a + (b + c + d) == a + b + c + d
  {}

  /** A fence with an info string is transparent to the extractor as well. */
  lemma ExtractFromFence(info: string, p: string, o: Json, s: string, after: string)
    requires NoLaterFence(after) && '{' !in p && o.Obj? && Valid(o)
    requires '\n' !in info && Trimmed(info) && info != ""
    ensures Extract(Fenced(info, p + Print(o) + s, after)) == Print(o)
  {
    PrintedTrimmed(o);
    TaggedBody(info, p, Print(o), s, after);
    ScanAfterTrim(p, o, TrimRight(s));
  }

  lemma FirstNewlineAt(info: string, rest: string)
    requires '\n' !in info
    ensures FirstNewline(info + "\n" + rest) == |info|
  {
    assert info + "\n" + rest == info + ("\n" + rest);
    IndexOfAppend(info, '\n', "\n" + rest);
  }

  lemma UntaggedBody(p: string, o: string, s: string, after: string)
    requires NoLaterFence(after) && o != "" && Trimmed(o)
    ensures Unfence(Fenced("", p + o + s, after)) == DropLine(TrimLeft(p) + o + TrimRight(s))
  {
    var body, nl := p + o + s, "\n" + p;
    UnfenceFenced("", body, after);
    assert "" + "\n" + body == nl + o + s;
    TrimAround(nl, o, s);
    assert nl[0] == '\n' && nl[1..] == p;
  }

  lemma ScanAfterTrim(p: string, o: Json, s: string)
    requires '{' !in p && o.Obj? && Valid(o)
    ensures ScanObject(TrimSpace(p + Print(o) + s)) == Print(o)
  {
    PrintedTrimmed(o);
    TrimAround(p, Print(o), s);
    LeftPart(p);
    ScanFindsObject(TrimLeft(p), o, TrimRight(s));
  }

  /** Without an info string the first line of the trimmed body is taken for one and lost.  The
      object is found when that line ends before it or does not end at all; otherwise its opening
      brace is gone and the scan starts behind it. */
  lemma UntaggedFence(p: string, o: Json, s: string, after: string, left: string, t: string, r: string)
    requires NoLaterFence(after) && '{' !in p && o.Obj? && Valid(o)
    requires left == TrimLeft(p) && t == left + Print(o) + TrimRight(s)
    requires r == Extract(Fenced("", p + Print(o) + s, after))
    ensures FirstLineLost(t, |left|, Print(o), r)
  {
    PrintedTrimmed(o);
    UntaggedBody(p, Print(o), s, after);
    LeftPart(p);
    AfterDroppedLine(left, o, TrimRight(s), t);
  }

  /** The result when the first line of `t` is dropped before `x`, which starts at `n`, is looked for. */
  ghost predicate FirstLineLost(t: string, n: nat, x: string, r: string) {
    var i := FirstNewline(t);
    && (i < n || i == |t| ==> r == x)
    && (n <= i < |t| ==> r == ScanObject(TrimSpace(t[i + 1..])))
  }

  lemma AfterDroppedLine(left: string, o: Json, right: string, t: string)
    requires '{' !in left && o.Obj? && Valid(o) && t == left + Print(o) + right
    ensures FirstLineLost(t, |left|, Print(o), ScanObject(DropLine(t)))
  {
    if FirstNewline(t) < |left| {
      DroppedBefore(left, o, right, t, FirstNewline(t));
    } else if FirstNewline(t) == |t| {
      ScanFindsObject(left, o, right);
    }
  }

  lemma DroppedBefore(left: string, o: Json, right: string, t: string, i: nat)
    requires '{' !in left && o.Obj? && Valid(o) && t == left + Print(o) + right && i < |left|
    ensures ScanObject(TrimSpace(t[i + 1..])) == Print(o)
  {
    CutWithin(left, Print(o), right, i + 1);
    ScanAfterTrim(left[i + 1..], o, right);
  }

  lemma CutWithin(a: string, b: string, c: string, i: nat)
    requires i <= |a|
    ensures (a + b + c)[i..] == a[i..] + b + c && forall x :: x in a[i..] ==> x in a
  {}

  predicate OccursAt(t: string, k: nat, x: string) {
    k + |x| <= |t| && t[k..k + |x|] == x
  }

  /** A copy of `x` starts behind position `i`. */
  ghost predicate OccursBehind(t: string, i: nat, x: string) {
    exists k :: i < k && OccursAt(t, k, x)
  }

  lemma OccursWithin(t: string, a: nat, y: string, b: nat, x: string)
    requires OccursAt(t, a, y) && OccursAt(y, b, x)
    ensures OccursAt(t, a + b, x)
  {
    forall j | 0 <= j < |x| ensures t[a + b + j] == x[j] {
      assert x[j] == y[b..b + |x|][j] == y[b + j];
      assert y[b + j] == t[a..a + |y|][b + j] == t[a + (b + j)];
    }
    assert t[a + b..a + b + |x|] == x;
  }

  lemma PrefixOccurs(x: string)
    ensures OccursAt(x, 0, TrimRight(x))
  {
    TrimRightFacts(x);
  }

  lemma TrimOccurs(x: string) returns (k: nat)
    ensures OccursAt(x, k, TrimSpace(x))
  {
    TrimLeftFacts(x);
    k :| 0 <= k <= |x| && TrimLeft(x) == x[k..];
    PrefixOccurs(TrimLeft(x));
    OccursWithin(x, k, TrimLeft(x), 0, TrimSpace(x));
  }

  /** The scan returns a part of the text it is given. */
  lemma ScanOccurs(x: string) returns (k: nat)
    ensures OccursAt(x, k, ScanObject(x))
  {
    BlockEndRange(x);
    if BlockEnd(x).None? {
      k := 0;
    } else {
      var b, e := FirstBrace(x), BlockEnd(x).value;
      var j := TrimOccurs(x[b..e]);
      k := b + j;
      OccursWithin(x, b, x[b..e], j, ScanObject(x));
    }
  }

  /** What a scan behind position `i` finds occurs behind `i`. */
  lemma FoundBehind(t: string, i: nat, x: string)
    requires i < |t| && ScanObject(TrimSpace(t[i + 1..])) == x
    ensures OccursBehind(t, i, x)
  {
    var rest := t[i + 1..];
    var a := TrimOccurs(rest);
    var b := ScanOccurs(TrimSpace(rest));
    OccursWithin(rest, a, TrimSpace(rest), b, x);
    assert OccursAt(t, i + 1, rest);
    OccursWithin(t, i + 1, rest, a + b, x);
  }

  /** The exact condition, for an object of which no second copy follows: it is found if and only
      if the first line break of the trimmed body comes before it or there is none. */
  lemma UntaggedFenceExact(p: string, o: Json, s: string, after: string, left: string, t: string, r: string)
    requires NoLaterFence(after) && '{' !in p && o.Obj? && Valid(o)
    requires left == TrimLeft(p) && t == left + Print(o) + TrimRight(s) && !OccursBehind(t, |left|, Print(o))
    requires r == Extract(Fenced("", p + Print(o) + s, after))
    ensures r == Print(o) <==> FirstNewline(t) < |left| || FirstNewline(t) == |t|
  {
    UntaggedFence(p, o, s, after, left, t, r);
    LostBehind(t, |left|, Print(o), r);
  }

  lemma LostBehind(t: string, n: nat, x: string, r: string)
    requires FirstLineLost(t, n, x, r) && !OccursBehind(t, n, x)
    ensures r == x <==> FirstNewline(t) < n || FirstNewline(t) == |t|
  {
    var i := FirstNewline(t);
    if n <= i < |t| && r == x {
      FoundBehind(t, i, x);
    }
  }

  /** Between brace-free texts an object has no second copy: the copy would have as many opening
      braces as there are, and the first one lies before it. */
  lemma NoSecondCopy(left: string, x: string, right: string)
    requires '{' !in left && '{' !in right && x != "" && x[0] == '{'
    ensures !OccursBehind(left + x + right, |left|, x)
  {
    var t := left + x + right;
    forall k | |left| < k ensures !OccursAt(t, k, x) {
      if OccursAt(t, k, x) { CopyHasBraces(t, k, x, |left|); }
    }
  }

  lemma CopyHasBraces(t: string, k: nat, x: string, b: nat)
    requires OccursAt(t, k, x) && b < k && t[b] == '{'
    ensures multiset(t)['{'] > multiset(x)['{']
  {
    assert t == t[..k] + x + t[k + |x|..];
    assert t[..k][b] == '{';
    assert multiset(t[..k])['{'] >= 1;
  }

  /** In particular when no opening brace follows the object. */
  lemma UntaggedFenceIff(p: string, o: Json, s: string, after: string, left: string, t: string, r: string)
    requires NoLaterFence(after) && '{' !in p && '{' !in s && o.Obj? && Valid(o)
    requires left == TrimLeft(p) && t == left + Print(o) + TrimRight(s)
    requires r == Extract(Fenced("", p + Print(o) + s, after))
    ensures r == Print(o) <==> FirstNewline(t) < |left| || FirstNewline(t) == |t|
  {
    LeftPart(p);
    TrimRightFacts(s);
    NoSecondCopy(left, Print(o), TrimRight(s));
    UntaggedFenceExact(p, o, s, after, left, t, r);
  }

  /** Such a loss: the two-line object inside an untagged fence. */
  lemma UntaggedFenceLosesObject(after: string)
    requires NoLaterFence(after)
    ensures Extract(Fenced("", "{\n}", after)) == ""
    ensures Extract("{\n}") == "{\n}"
  {
    TwoLineObject();
    LostBody("{\n}", after);
  }

  lemma LostBody(o: string, after: string)
    requires NoLaterFence(after) && o != "" && Trimmed(o)
    ensures Unfence(Fenced("", o, after)) == DropLine(o)
  {
    assert "" + o + "" == o;
    UntaggedBody("", o, "", after);
  }

  lemma TwoLineObject()
    ensures Trimmed("{\n}") && Extract("{\n}") == "{\n}"
  {
    var o := Obj("\n", NoMembers);
    assert Print(o) == "{\n}" by { assert "{" + "\n" + "" + "}" == "{\n}"; }
    assert "" + "{\n}" + "" == "{\n}";
    TrimSpaceFacts("{\n}");
    ExtractUndoesPrinting("", o, "");
  }
}
