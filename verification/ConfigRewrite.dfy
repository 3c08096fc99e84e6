/** Removing Anthropic providers from a TOML configuration, line by line
    (cmd/chum/config_quickcmd.go). */
module ConfigRewrite {
  import opened Text
  import opened TierLists

  /** A line as the rewriter's patterns classify it, with the captured groups. */
  datatype Line =
    | Header(text: string, name: string)
    | TierLine(indent: string, key: string, eq: string, body: string, trail: string)
    | ModelLine(pre: string, value: string, post: string)
    | BlankLine(text: string)
    | OtherLine(text: string)

  const EMPTY := BlankLine("")

  // ---------------------------------------------------------------- tables

  /** The index of the header a line stands under, or -1 before the first header. */
  function HeaderAt(lines: seq<Line>, i: nat): (h: int)
    requires i < |lines|
    ensures -1 <= h <= i && (h >= 0 ==> lines[h].Header?)
  {
    if lines[i].Header? then i else if i == 0 then -1 else HeaderAt(lines, i - 1)
  }

  /** The index of the next header from `i` on, or the length. */
  function NextHeader(lines: seq<Line>, i: nat): (n: nat)
    requires i <= |lines|
    ensures i <= n <= |lines| && (n < |lines| ==> lines[n].Header?)
    decreases |lines| - i
  {
    if i == |lines| || lines[i].Header? then i else NextHeader(lines, i + 1)
  }

  lemma {:induction false} HeaderAtLast(lines: seq<Line>, i: nat)
    requires i < |lines|
    ensures forall k :: HeaderAt(lines, i) < k <= i ==> !lines[k].Header?
  {
    if !lines[i].Header? && i > 0 { HeaderAtLast(lines, i - 1); }
  }

  lemma {:induction false} NextHeaderFirst(lines: seq<Line>, i: nat)
    requires i <= |lines|
    ensures forall k :: i <= k < NextHeader(lines, i) ==> !lines[k].Header?
    decreases |lines| - i
  {
    if i < |lines| && !lines[i].Header? { NextHeaderFirst(lines, i + 1); }
  }

  function TableName(header: string): string {
    ToLower(TrimSpace(header))
  }

  predicate RemovableName(name: string) {
    name == "dispatch.cli.claude" || (HasPrefix(name, "providers.") && LooksAnthropic(name[10..]))
  }

  predicate AnthropicModel(l: Line) {
    l.ModelLine? && LooksAnthropic(l.value)
  }

  /** A table that goes: named after Anthropic, or a provider with an Anthropic model. */
  predicate Removable(block: seq<Line>) {
    && block != [] && block[0].Header?
    && (RemovableName(TableName(block[0].name))
        || (HasPrefix(TableName(block[0].name), "providers.") && exists l :: l in block && AnthropicModel(l)))
  }

  function Block(lines: seq<Line>, h: nat): seq<Line>
    requires h < |lines|
  {
    lines[h..NextHeader(lines, h + 1)]
  }

  predicate Skipped(lines: seq<Line>, i: nat)
    requires i < |lines|
  {
    HeaderAt(lines, i) >= 0 && Removable(Block(lines, HeaderAt(lines, i)))
  }

  function TableAt(lines: seq<Line>, i: nat): string
    requires i < |lines|
  {
    var h := HeaderAt(lines, i);
    if h < 0 then "" else TableName(lines[h].name)
  }

  // ---------------------------------------------------------------- lines

  const DEFAULT_MODEL := "gpt-5.3-codex"

  function Fallback(model: string): string {
    if TrimSpace(model) == "" then DEFAULT_MODEL else model
  }

  /** The part of a replacement that the model pattern reads back: it captures up to the first quote. */
  function Captured(f: string): string {
    f[..IndexOf(f, '"')]
  }

  /** The line with `f` written between its quotes, as the model pattern reads it. */
  function Replaced(l: Line, f: string): Line
    requires l.ModelLine?
  {
    ModelLine(l.pre, Captured(f), f[IndexOf(f, '"')..] + l.post)
  }

  function RewriteLine(table: string, l: Line, model: string): Line {
    if table == "tiers" && l.TierLine? then l.(body := TrimTier(l.body))
    else if table == "chief" && AnthropicModel(l) then Replaced(l, Fallback(model))
    else l
  }

  /** The replaced line has the text the source writes, split where the pattern splits it. */
  lemma ReplacedReads(l: Line, f: string)
    requires l.ModelLine? && l.post != "" && l.post[0] == '"'
    ensures
      var r := Replaced(l, f);
      && r.pre + r.value + r.post == l.pre + f + l.post
      && '"' !in r.value && r.post != "" && r.post[0] == '"'
  {
    var q := IndexOf(f, '"');
    assert f == f[..q] + f[q..];
    NoneBefore(f, '"');
  }

  /** What a line becomes: nothing in a removed table, otherwise its rewriting. */
  function Piece(skipped: bool, table: string, l: Line, model: string): seq<Line> {
    if skipped then [] else [RewriteLine(table, l, model)]
  }

  function KeptLine(lines: seq<Line>, i: nat, model: string): seq<Line>
    requires i < |lines|
  {
    Piece(Skipped(lines, i), TableAt(lines, i), lines[i], model)
  }

  function Pieces(lines: seq<Line>, model: string): (r: seq<seq<Line>>)
    ensures |r| == |lines| && forall i :: 0 <= i < |lines| ==> r[i] == KeptLine(lines, i, model)
  {
    seq(|lines|, i requires 0 <= i < |lines| => KeptLine(lines, i, model))
  }

  function Concat(pieces: seq<seq<Line>>): seq<Line> {
    if pieces == [] then [] else Concat(pieces[..|pieces| - 1]) + pieces[|pieces| - 1]
  }

  function Kept(lines: seq<Line>, model: string): seq<Line> {
    Concat(Pieces(lines, model))
  }

  /** Some table is removed or some line rewritten. */
  predicate Touched(lines: seq<Line>, model: string) {
    exists i :: 0 <= i < |lines| && KeptLine(lines, i, model) != [lines[i]]
  }

  // ---------------------------------------------------------------- blank runs

  /** The number of blank lines at the end. */
  function BlankRun(lines: seq<Line>): nat {
    if lines == [] || !lines[|lines| - 1].BlankLine? then 0 else 1 + BlankRun(lines[..|lines| - 1])
  }

  /** At most two blank lines in a row. */
  function Collapse(lines: seq<Line>): seq<Line> {
    if lines == [] then []
    else Collapse(lines[..|lines| - 1]) + if BlankRun(lines) > 2 then [] else [lines[|lines| - 1]]
  }

  lemma {:induction false} BlankRunAppend(a: seq<Line>, b: seq<Line>)
    requires b != [] && !b[0].BlankLine?
    ensures BlankRun(a + b) == BlankRun(b)
  {
    var n := |b| - 1;
    if b[n].BlankLine? {
      assert (a + b)[..|a + b| - 1] == a + b[..n];
      BlankRunAppend(a, b[..n]);
    }
  }

  /** Blank runs do not cross a non-blank line. */
  lemma {:induction false} CollapseAppend(a: seq<Line>, b: seq<Line>)
    requires b == [] || !b[0].BlankLine?
    ensures Collapse(a + b) == Collapse(a) + Collapse(b)
  {
    if b == [] {
      assert a + b == a;
    } else {
      var n := |b| - 1;
      assert (a + b)[..|a + b| - 1] == a + b[..n];
      CollapseAppend(a, b[..n]);
      BlankRunAppend(a, b);
    }
  }

  lemma {:induction false} CollapseTwice(lines: seq<Line>)
    ensures Collapse(Collapse(lines)) == Collapse(lines)
    ensures BlankRun(Collapse(lines)) == if BlankRun(lines) > 2 then 2 else BlankRun(lines)
  {
    if lines != [] {
      var n := |lines| - 1;
      var init := Collapse(lines[..n]);
      CollapseTwice(lines[..n]);
      if BlankRun(lines) <= 2 {
        assert (init + [lines[n]])[..|init|] == init;
      } else {
        assert Collapse(lines) == init && lines[n].BlankLine?;
      }
    }
  }

  function NonBlank(lines: seq<Line>): seq<Line> {
    if lines == [] then []
    else NonBlank(lines[..|lines| - 1]) + if lines[|lines| - 1].BlankLine? then [] else [lines[|lines| - 1]]
  }

  /** Collapsing drops blank lines only and keeps the order. */
  lemma {:induction false} CollapseKeepsOrder(lines: seq<Line>)
    ensures NonBlank(Collapse(lines)) == NonBlank(lines)
  {
    if lines != [] {
      var n := |lines| - 1;
      var init := Collapse(lines[..n]);
      CollapseKeepsOrder(lines[..n]);
      if BlankRun(lines) <= 2 {
        assert (init + [lines[n]])[..|init|] == init;
      } else {
        assert Collapse(lines) == init && lines[n].BlankLine?;
      }
    }
  }

  lemma {:induction false} CollapseKeeps(lines: seq<Line>)
    ensures forall l :: l in Collapse(lines) ==> l in lines
    ensures forall l :: l in lines && !l.BlankLine? ==> l in Collapse(lines)
  {
    if lines != [] {
      var n := |lines| - 1;
      CollapseKeeps(lines[..n]);
      assert lines == lines[..n] + [lines[n]];
      assert BlankRun(lines) > 2 ==> lines[n].BlankLine?;
    }
  }

  // ---------------------------------------------------------------- the whole content

  /** Content split at newlines; never empty. */
  predicate AllBlank(lines: seq<Line>) {
    forall i :: 0 <= i < |lines| ==> lines[i].BlankLine?
  }

  predicate EndsWithNewline(lines: seq<Line>) {
    |lines| >= 2 && lines[|lines| - 1] == BlankLine("")
  }

  /** Joining no lines gives the empty text, which is one empty line. */
  function Joined(lines: seq<Line>): seq<Line> {
    if lines == [] then [BlankLine("")] else lines
  }

  function Rewritten(lines: seq<Line>, model: string): seq<Line> {
    Collapse(Kept(lines, model))
  }

  /** The output lines as text, which ends in a newline if the input did. */
  function Finished(lines: seq<Line>, out: seq<Line>): seq<Line> {
    if EndsWithNewline(lines) && !EndsWithNewline(Joined(out)) then Joined(out) + [BlankLine("")] else Joined(out)
  }

  function Disable(lines: seq<Line>, model: string): (seq<Line>, bool) {
    if AllBlank(lines) then (lines, false)
    else (Finished(lines, Rewritten(lines, model)), Touched(lines, model))
  }

  // ---------------------------------------------------------------- the rewriting loops

  method MarkSkipped(lines: seq<Line>) returns (skip: seq<bool>, removed: bool)
    ensures |skip| == |lines| && forall i :: 0 <= i < |lines| ==> skip[i] == Skipped(lines, i)
    ensures removed <==> exists i :: 0 <= i < |lines| && Skipped(lines, i)
  {
    var flags := new bool[|lines|](_ => false);
    removed := false;
    assert Marks(lines, 0, flags[..]);
    for h := 0 to |lines|
      invariant Marks(lines, h, flags[..])
      invariant removed <==> true in flags[..]
    {
      if !lines[h].Header? {
        NoBlockNext(lines, h, flags[..]);
        continue;
      }
      var removable := MarkTable(lines, flags, h);
      removed := removed || removable;
    }
    skip := flags[..];
  }

  method MarkTable(lines: seq<Line>, flags: array<bool>, h: nat) returns (removable: bool)
    requires flags.Length == |lines| && h < |lines| && lines[h].Header? && Marks(lines, h, flags[..])
    modifies flags
    ensures Marks(lines, h + 1, flags[..])
    ensures true in flags[..] <==> removable || true in old(flags[..])
  {
    var end := NextHeader(lines, h + 1);
    removable := ShouldRemoveTable(lines[h].name, lines[h..end]);
    if removable {
      MarkBlock(flags, h, end);
      assert flags[..][h];
    }
    BlockNext(lines, h, old(flags[..]), flags[..]);
  }

  /** The flags of the lines that stand in removable tables with a header before `h`. */
  ghost predicate Marks(lines: seq<Line>, h: nat, flags: seq<bool>) {
    |flags| == |lines| && forall i :: 0 <= i < |lines| ==> flags[i] == (Skipped(lines, i) && HeaderAt(lines, i) < h)
  }

  lemma NoBlockNext(lines: seq<Line>, h: nat, flags: seq<bool>)
    requires h < |lines| && !lines[h].Header? && Marks(lines, h, flags)
    ensures Marks(lines, h + 1, flags)
  {
    assert forall i :: 0 <= i < |lines| ==> HeaderAt(lines, i) != h;
  }

  lemma BlockNext(lines: seq<Line>, h: nat, flags: seq<bool>, after: seq<bool>)
    requires h < |lines| && lines[h].Header? && Marks(lines, h, flags) && |after| == |flags|
    requires forall i :: 0 <= i < |lines| ==>
      after[i] == (flags[i] || (Removable(Block(lines, h)) && h <= i < NextHeader(lines, h + 1)))
    ensures Marks(lines, h + 1, after)
  {
    forall i | 0 <= i < |lines| ensures after[i] == (Skipped(lines, i) && HeaderAt(lines, i) < h + 1) {
      UnderHeader(lines, h, i);
    }
  }

  method MarkBlock(flags: array<bool>, start: nat, end: nat)
    requires start <= end <= flags.Length
    modifies flags
    ensures forall k :: 0 <= k < flags.Length ==> flags[k] == (old(flags[k]) || start <= k < end)
  {
    for i := start to end
      invariant forall k :: 0 <= k < flags.Length ==> flags[k] == (old(flags[k]) || start <= k < i)
    {
      flags[i] := true;
    }
  }

  method ShouldRemoveTable(header: string, block: seq<Line>) returns (remove: bool)
    requires block != [] && block[0].Header? && block[0].name == header
    ensures remove == Removable(block)
    ensures
      var name := ToLower(TrimSpace(header));
      remove <==> name == "dispatch.cli.claude"
                  || ("providers." <= name
                      && (LooksAnthropic(name[10..]) || exists l <- block :: l.ModelLine? && LooksAnthropic(l.value)))
  {
    var name := ToLower(TrimSpace(header));
    if name == "dispatch.cli.claude" {
      return true;
    }
    if !HasPrefix(name, "providers.") {
      return false;
    }
    if LooksAnthropic(name[10..]) {
      return true;
    }
    for i := 0 to |block|
      invariant forall j :: 0 <= j < i ==> !AnthropicModel(block[j])
    {
      if block[i].ModelLine? && LooksAnthropic(block[i].value) {
        assert block[i] in block && AnthropicModel(block[i]);
        return true;
      }
    }
    return false;
  }

  lemma UnderHeader(lines: seq<Line>, h: nat, i: nat)
    requires h < |lines| && lines[h].Header? && i < |lines|
    ensures HeaderAt(lines, i) == h <==> h <= i < NextHeader(lines, h + 1)
  {
    HeaderAtLast(lines, i);
    NextHeaderFirst(lines, h + 1);
  }

  method CollapseBlankRuns(lines: seq<Line>) returns (out: seq<Line>)
    ensures out == Collapse(lines)
  {
    out := [];
    var run := 0;
    for i := 0 to |lines|
      invariant out == Collapse(lines[..i]) && run == BlankRun(lines[..i])
    {
      assert lines[..i + 1][..i] == lines[..i];
      if lines[i].BlankLine? {
        run := run + 1;
        if run > 2 {
          continue;
        }
      } else {
        run := 0;
      }
      out := out + [lines[i]];
    }
    assert lines[..|lines|] == lines;
  }

  method RewriteLines(lines: seq<Line>, skip: seq<bool>, model: string) returns (out: seq<Line>, changed: bool)
    requires |skip| == |lines| && forall i :: 0 <= i < |lines| ==> skip[i] == Skipped(lines, i)
    ensures out == Kept(lines, model)
    ensures changed <==> AnyRewritten(Pieces(lines, model), lines, |lines|)
  {
    var table := "";
    ghost var pieces := Pieces(lines, model);
    out := [];
    changed := false;
    for i := 0 to |lines|
      invariant out == Concat(pieces[..i])
      invariant changed <==> AnyRewritten(pieces, lines, i)
      invariant Under(lines, i, table)
    {
      ConcatNext(pieces, i);
      if skip[i] {
        assert pieces[i] == [];
        continue;
      }
      if lines[i].Header? {
        table := TableName(lines[i].name);
      }
      var updated := RewriteInTable(table, lines[i], model);
      assert pieces[i] == [updated];
      if updated != lines[i] {
        changed := true;
      }
      out := out + [updated];
    }
    assert pieces[..|lines|] == pieces;
  }

  /** Some line among the first `n` is kept, and not as it was. */
  predicate AnyRewritten(pieces: seq<seq<Line>>, lines: seq<Line>, n: nat)
    requires n <= |pieces| == |lines|
  {
    n > 0 && (AnyRewritten(pieces, lines, n - 1) || (|pieces[n - 1]| == 1 && pieces[n - 1][0] != lines[n - 1]))
  }

  lemma {:induction false} AnyRewrittenMeans(pieces: seq<seq<Line>>, lines: seq<Line>, n: nat)
    requires n <= |pieces| == |lines|
    ensures AnyRewritten(pieces, lines, n) <==> exists i :: 0 <= i < n && |pieces[i]| == 1 && pieces[i][0] != lines[i]
  {
    if n > 0 { AnyRewrittenMeans(pieces, lines, n - 1); }
  }

  method RewriteInTable(table: string, line: Line, model: string) returns (updated: Line)
    ensures updated == RewriteLine(table, line, model)
  {
    updated := line;
    if table == "tiers" && updated.TierLine? {
      var body := TrimTierValues(updated.body);
      updated := updated.(body := body);
    }
    if table == "chief" && updated.ModelLine? {
      updated := ReplaceChiefModel(updated, model);
    }
  }

  method ReplaceChiefModel(line: Line, model: string) returns (updated: Line)
    requires line.ModelLine?
    ensures updated == if AnthropicModel(line) then Replaced(line, Fallback(model)) else line
  {
    var fallback := model;
    if TrimSpace(model) == "" {
      fallback := DEFAULT_MODEL;
    }
    if !LooksAnthropic(line.value) {
      return line;
    }
    var q := IndexOf(fallback, '"');
    return ModelLine(line.pre, fallback[..q], fallback[q..] + line.post);
  }

  method DisableAnthropic(lines: seq<Line>, model: string) returns (out: seq<Line>, changed: bool)
    ensures (out, changed) == Disable(lines, model)
    ensures EndsWithNewline(lines) ==> EndsWithNewline(out)
    ensures (forall l <- lines :: l.BlankLine?) ==> out == lines && !changed
  {
    if AllBlank(lines) {
      return lines, false;
    }
    var skip, removed := MarkSkipped(lines);
    var rewritten;
    out, rewritten := RewriteLines(lines, skip, model);
    TouchedMeans(lines, model);
    changed := removed || rewritten;
    out := CollapseBlankRuns(out);
    if out == [] {
      out := [BlankLine("")];
    }
    if EndsWithNewline(lines) && !EndsWithNewline(out) {
      out := out + [BlankLine("")];
    }
  }

  lemma TouchedMeans(lines: seq<Line>, model: string)
    ensures
      Touched(lines, model)
      <==> (exists i :: 0 <= i < |lines| && Skipped(lines, i)) || AnyRewritten(Pieces(lines, model), lines, |lines|)
  {
    var pieces := Pieces(lines, model);
    AnyRewrittenMeans(pieces, lines, |lines|);
    forall i | 0 <= i < |lines|
      ensures KeptLine(lines, i, model) != [lines[i]] <==>
          Skipped(lines, i) || (|pieces[i]| == 1 && pieces[i][0] != lines[i])
    {}
  }

  lemma ConcatNext(pieces: seq<seq<Line>>, i: nat)
    requires i < |pieces|
    ensures Concat(pieces[..i + 1]) == Concat(pieces[..i]) + pieces[i]
  {
    assert pieces[..i + 1][..i] == pieces[..i];
  }

  /** `table` is the table of the line before `i`, unless that line is skipped. */
  predicate Under(lines: seq<Line>, i: nat, table: string)
    requires i <= |lines|
  {
    if i == 0 then table == "" else Skipped(lines, i - 1) || table == TableAt(lines, i - 1)
  }

  // ---------------------------------------------------------------- table by table

  /** One header and what follows it up to the next, or lines before the first header. */
  predicate OneTable(t: seq<Line>) {
    forall i :: 1 <= i < |t| ==> !t[i].Header?
  }

  /** `b` starts a new table, so it neither affects what precedes it nor is affected by it. */
  predicate Separate(b: seq<Line>) {
    b == [] || b[0].Header?
  }

  function TableOf(t: seq<Line>): string {
    if t != [] && t[0].Header? then TableName(t[0].name) else ""
  }

  function RewriteAll(t: seq<Line>, table: string, model: string): (r: seq<Line>)
    ensures |r| == |t| && forall i :: 0 <= i < |t| ==> r[i] == RewriteLine(table, t[i], model)
  {
    seq(|t|, i requires 0 <= i < |t| => RewriteLine(table, t[i], model))
  }

  function KeptTable(t: seq<Line>, model: string): seq<Line> {
    if Removable(t) then [] else RewriteAll(t, TableOf(t), model)
  }

  /** The same rewriting, one whole table at a time. */
  function ByTable(lines: seq<Line>, model: string): seq<Line>
    decreases |lines|
  {
    if lines == [] then []
    else
      var n := NextHeader(lines, 1);
      KeptTable(lines[..n], model) + ByTable(lines[n..], model)
  }

  lemma FirstTable(lines: seq<Line>)
    requires lines != []
    ensures
      var n := NextHeader(lines, 1);
      OneTable(lines[..n]) && Separate(lines[n..]) && lines == lines[..n] + lines[n..]
  {
    NextHeaderFirst(lines, 1);
  }

  lemma {:induction false} HeaderLeft(a: seq<Line>, b: seq<Line>, i: nat)
    requires i < |a|
    ensures HeaderAt(a + b, i) == HeaderAt(a, i)
  {
    if !a[i].Header? && i > 0 { HeaderLeft(a, b, i - 1); }
  }

  lemma {:induction false} HeaderRight(a: seq<Line>, b: seq<Line>, i: nat)
    requires b != [] && b[0].Header? && |a| <= i < |a + b|
    ensures HeaderAt(a + b, i) == |a| + HeaderAt(b, i - |a|) && HeaderAt(b, i - |a|) >= 0
  {
    if !b[i - |a|].Header? && i > |a| { HeaderRight(a, b, i - 1); }
  }

  lemma {:induction false} NextLeft(a: seq<Line>, b: seq<Line>, i: nat)
    requires Separate(b) && i <= |a|
    ensures NextHeader(a + b, i) == NextHeader(a, i)
    decreases |a| - i
  {
    if i < |a| && !a[i].Header? { NextLeft(a, b, i + 1); }
  }

  lemma {:induction false} NextRight(a: seq<Line>, b: seq<Line>, i: nat)
    requires i <= |b|
    ensures NextHeader(a + b, |a| + i) == |a| + NextHeader(b, i)
    decreases |b| - i
  {
    if i < |b| && !b[i].Header? { NextRight(a, b, i + 1); }
  }

  lemma BlockLeft(a: seq<Line>, b: seq<Line>, h: nat)
    requires Separate(b) && h < |a|
    ensures Block(a + b, h) == Block(a, h)
  {
    NextLeft(a, b, h + 1);
    var n := NextHeader(a, h + 1);
    assert (a + b)[h..n] == a[h..n];
  }

  lemma SkippedLeft(a: seq<Line>, b: seq<Line>, i: nat)
    requires Separate(b) && i < |a|
    ensures Skipped(a + b, i) == Skipped(a, i) && TableAt(a + b, i) == TableAt(a, i)
  {
    HeaderLeft(a, b, i);
    var h := HeaderAt(a, i);
    if h >= 0 {
      BlockLeft(a, b, h);
      assert (a + b)[h] == a[h];
    }
  }

  lemma BlockRight(a: seq<Line>, b: seq<Line>, h: nat)
    requires h < |b|
    ensures Block(a + b, |a| + h) == Block(b, h)
  {
    NextRight(a, b, h + 1);
  }

  lemma SkippedRight(a: seq<Line>, b: seq<Line>, i: nat)
    requires b != [] && b[0].Header? && |a| <= i < |a + b|
    ensures Skipped(a + b, i) == Skipped(b, i - |a|) && TableAt(a + b, i) == TableAt(b, i - |a|)
  {
    HeaderRight(a, b, i);
    var h := HeaderAt(b, i - |a|);
    BlockRight(a, b, h);
    assert (a + b)[|a| + h] == b[h];
  }

  lemma {:induction false} ConcatAppend(p: seq<seq<Line>>, q: seq<seq<Line>>)
    ensures Concat(p + q) == Concat(p) + Concat(q)
  {
    if q == [] {
      assert p + q == p;
    } else {
      assert (p + q)[..|p + q| - 1] == p + q[..|q| - 1];
      ConcatAppend(p, q[..|q| - 1]);
    }
  }

  lemma PieceLeft(a: seq<Line>, b: seq<Line>, i: nat, model: string)
    requires Separate(b) && i < |a|
    ensures Pieces(a + b, model)[i] == Pieces(a, model)[i]
  {
    SkippedLeft(a, b, i);
  }

  lemma PieceRight(a: seq<Line>, b: seq<Line>, i: nat, model: string)
    requires Separate(b) && |a| <= i < |a + b|
    ensures Pieces(a + b, model)[i] == Pieces(b, model)[i - |a|]
  {
    SkippedRight(a, b, i);
    assert (a + b)[i] == b[i - |a|];
  }

  ghost predicate StartsWith(all: seq<seq<Line>>, p: seq<seq<Line>>) {
    |p| <= |all| && forall i :: 0 <= i < |p| ==> all[i] == p[i]
  }

  ghost predicate EndsWith(all: seq<seq<Line>>, n: nat, q: seq<seq<Line>>) {
    |all| == n + |q| && forall i :: n <= i < |all| ==> all[i] == q[i - n]
  }

  lemma ConcatSplit(all: seq<seq<Line>>, p: seq<seq<Line>>, q: seq<seq<Line>>)
    requires StartsWith(all, p) && EndsWith(all, |p|, q)
    ensures Concat(all) == Concat(p) + Concat(q)
  {
    assert all == p + q;
    ConcatAppend(p, q);
  }

  lemma PiecesLeft(a: seq<Line>, b: seq<Line>, model: string)
    requires Separate(b)
    ensures StartsWith(Pieces(a + b, model), Pieces(a, model))
  {
    forall i | 0 <= i < |a| ensures Pieces(a + b, model)[i] == Pieces(a, model)[i] { PieceLeft(a, b, i, model); }
  }

  lemma PiecesRight(a: seq<Line>, b: seq<Line>, model: string)
    requires Separate(b)
    ensures EndsWith(Pieces(a + b, model), |Pieces(a, model)|, Pieces(b, model))
  {
    forall i | |a| <= i < |a + b| ensures Pieces(a + b, model)[i] == Pieces(b, model)[i - |a|] {
      PieceRight(a, b, i, model);
    }
  }

  lemma KeptAppend(a: seq<Line>, b: seq<Line>, model: string)
    requires Separate(b)
    ensures Kept(a + b, model) == Kept(a, model) + Kept(b, model)
  {
    PiecesLeft(a, b, model);
    PiecesRight(a, b, model);
    ConcatSplit(Pieces(a + b, model), Pieces(a, model), Pieces(b, model));
  }

  lemma InOneTable(t: seq<Line>, i: nat)
    requires OneTable(t) && i < |t|
    ensures TableAt(t, i) == TableOf(t) && Skipped(t, i) == Removable(t)
  {
    if t[0].Header? {
      UnderHeader(t, 0, i);
      assert NextHeader(t, 1) == |t|;
      assert Block(t, 0) == t;
    } else {
      assert HeaderAt(t, i) == -1;
    }
  }

  lemma {:induction false} ConcatNone(pieces: seq<seq<Line>>)
    requires forall i :: 0 <= i < |pieces| ==> pieces[i] == []
    ensures Concat(pieces) == []
  {
    if pieces != [] { ConcatNone(pieces[..|pieces| - 1]); }
  }

  lemma {:induction false} ConcatSingles(pieces: seq<seq<Line>>, r: seq<Line>)
    requires |pieces| == |r| && forall i :: 0 <= i < |r| ==> pieces[i] == [r[i]]
    ensures Concat(pieces) == r
  {
    if pieces != [] { ConcatSingles(pieces[..|pieces| - 1], r[..|r| - 1]); }
  }

  lemma KeptOneTable(t: seq<Line>, model: string)
    requires OneTable(t)
    ensures Kept(t, model) == KeptTable(t, model)
  {
    forall i | 0 <= i < |t|
      ensures KeptLine(t, i, model) == if Removable(t) then [] else [RewriteLine(TableOf(t), t[i], model)]
    {
      InOneTable(t, i);
    }
    if Removable(t) {
      ConcatNone(Pieces(t, model));
    } else {
      ConcatSingles(Pieces(t, model), RewriteAll(t, TableOf(t), model));
    }
  }

  /** The line loop with its skip flags and its current table computes the table view. */
  lemma {:induction false} KeptIsByTable(lines: seq<Line>, model: string)
    ensures Kept(lines, model) == ByTable(lines, model)
    decreases |lines|
  {
    if lines != [] {
      var n := NextHeader(lines, 1);
      var t, rest := lines[..n], lines[n..];
      FirstTable(lines);
      KeptAppend(t, rest, model);
      KeptOneTable(t, model);
      KeptIsByTable(rest, model);
    }
  }

  lemma FirstTableOf(t: seq<Line>, rest: seq<Line>)
    requires t != [] && OneTable(t) && Separate(rest)
    ensures var n := NextHeader(t + rest, 1); (t + rest)[..n] == t && (t + rest)[n..] == rest
  {
    NextLeft(t, rest, 1);
    var lines := t + rest;
    assert NextHeader(t, 1) == |t|;
    assert lines[..|t|] == t && lines[|t|..] == rest;
  }

  /** A table in front is rewritten on its own. */
  lemma ByTableStep(t: seq<Line>, rest: seq<Line>, model: string)
    requires OneTable(t) && Separate(rest)
    ensures ByTable(t + rest, model) == KeptTable(t, model) + ByTable(rest, model)
  {
    if t == [] {
      assert t + rest == rest;
    } else {
      FirstTableOf(t, rest);
    }
  }

  lemma {:induction false} ByTableShape(lines: seq<Line>, model: string)
    ensures |ByTable(lines, model)| <= |lines|
    ensures Separate(lines) ==> Separate(ByTable(lines, model))
    decreases |lines|
  {
    if lines != [] {
      FirstTable(lines);
      var n := NextHeader(lines, 1);
      ByTableShape(lines[n..], model);
    }
  }

  /** Collapsing blank runs goes table by table as well. */
  lemma RewrittenStep(lines: seq<Line>, model: string)
    requires lines != []
    ensures
      var n := NextHeader(lines, 1);
      Rewritten(lines, model) == Collapse(KeptTable(lines[..n], model)) + Rewritten(lines[n..], model)
  {
    var n := NextHeader(lines, 1);
    var t, rest := lines[..n], lines[n..];
    FirstTable(lines);
    KeptIsByTable(lines, model);
    KeptIsByTable(rest, model);
    ByTableShape(rest, model);
    CollapseAppend(KeptTable(t, model), ByTable(rest, model));
  }

  // ---------------------------------------------------------------- a second pass over one table

  predicate StableTier(l: Line) {
    l.TierLine? ==> Stable(Names(Quoted(l.body)))
  }

  /** The tier lists of a [tiers] table have entries that survive a second reading. */
  predicate StableTable(t: seq<Line>) {
    TableOf(t) == "tiers" ==> forall l :: l in t ==> StableTier(l)
  }

  /** So do those of every [tiers] table. */
  predicate StableTiers(lines: seq<Line>)
    decreases |lines|
  {
    lines == [] || (var n := NextHeader(lines, 1); StableTable(lines[..n]) && StableTiers(lines[n..]))
  }

  /** Reading the fallback back does not give another Anthropic model to replace. */
  predicate SafeFallback(model: string) {
    '"' !in Fallback(model) || !LooksAnthropic(Captured(Fallback(model)))
  }

  predicate ReplacesIn(t: seq<Line>) {
    TableOf(t) == "chief" && exists l :: l in t && AnthropicModel(l)
  }

  /** Some [chief] table has an Anthropic model to replace. */
  predicate ReplacesChief(lines: seq<Line>)
    decreases |lines|
  {
    lines != [] && (var n := NextHeader(lines, 1); ReplacesIn(lines[..n]) || ReplacesChief(lines[n..]))
  }

  /** What makes a second pass find nothing: stable tier lists, and no replacement or a safe one. */
  predicate Steady(lines: seq<Line>, model: string) {
    StableTiers(lines) && (ReplacesChief(lines) ==> SafeFallback(model))
  }

  predicate SteadyTable(t: seq<Line>, model: string) {
    StableTable(t) && (ReplacesIn(t) ==> SafeFallback(model))
  }

  predicate SteadyLine(table: string, l: Line, model: string) {
    (table == "tiers" ==> StableTier(l)) && (table == "chief" && AnthropicModel(l) ==> SafeFallback(model))
  }

  lemma ReplacedTwice(l: Line, f: string)
    requires l.ModelLine?
    ensures Replaced(Replaced(l, f), f) == Replaced(l, f) <==> '"' !in f
  {
    var q := IndexOf(f, '"');
    if '"' in f {
      var k :| 0 <= k < |f| && f[k] == '"';
      IndexOfFirst(f, '"', k);
      assert |Replaced(Replaced(l, f), f).post| > |Replaced(l, f).post|;
    } else {
      IndexOfAppend(f, '"', "");
      assert f + "" == f && f[q..] == "";
    }
  }

  lemma RewriteLineTwice(table: string, l: Line, model: string)
    ensures RewriteLine(table, RewriteLine(table, l, model), model) == RewriteLine(table, l, model)
            <==> SteadyLine(table, l, model)
  {
    if l.TierLine? { TrimTierIdempotentIff(l.body); }
    if l.ModelLine? { ReplacedTwice(l, Fallback(model)); }
  }

  lemma {:induction false} CollapseHead(x: Line, rest: seq<Line>)
    requires !x.BlankLine?
    ensures Collapse([x] + rest) != [] && Collapse([x] + rest)[0] == x
    ensures forall i :: 1 <= i < |Collapse([x] + rest)| ==> Collapse([x] + rest)[i] in rest
  {
    if rest == [] {
      assert [x] + rest == [x];
      assert [x][..0] == [];
    } else {
      var n := |rest| - 1;
      assert ([x] + rest)[..n + 1] == [x] + rest[..n];
      CollapseHead(x, rest[..n]);
      assert forall l :: l in rest[..n] ==> l in rest;
    }
  }

  /** Collapsing neither creates nor loses headers. */
  lemma CollapseOneTable(r: seq<Line>)
    requires OneTable(r)
    ensures OneTable(Collapse(r)) && TableOf(Collapse(r)) == TableOf(r)
    ensures r != [] && r[0].Header? ==> Separate(Collapse(r)) && Collapse(r) != [] && Collapse(r)[0] == r[0]
    ensures r == [] || !r[0].Header? ==> Collapse(r) == [] || !Collapse(r)[0].Header?
  {
    CollapseKeeps(r);
    var u := Collapse(r);
    if r != [] && r[0].Header? {
      var rest := r[1..];
      assert r == [r[0]] + rest;
      CollapseHead(r[0], rest);
      forall i | 1 <= i < |u| ensures !u[i].Header? { assert u[i] in rest; }
    } else {
      forall i | 0 <= i < |u| ensures !u[i].Header? { assert u[i] in r; }
    }
  }

  /** A table that stays is not removable afterwards. */
  lemma StaysKept(t: seq<Line>, u: seq<Line>, model: string)
    requires OneTable(t) && !Removable(t) && u == Collapse(RewriteAll(t, TableOf(t), model))
    ensures OneTable(u) && TableOf(u) == TableOf(t) && !Removable(u)
  {
    var table := TableOf(t);
    var r := RewriteAll(t, table, model);
    CollapseOneTable(r);
    CollapseKeeps(r);
    if t != [] && t[0].Header? && HasPrefix(table, "providers.") {
      forall l | l in u ensures !AnthropicModel(l) {
        var i :| 0 <= i < |r| && r[i] == l;
        assert t[i] in t;
      }
    }
  }

  /** Among the rewritten lines, a second rewriting changes nothing exactly when each line is steady. */
  lemma LinesSettle(t: seq<Line>, u: seq<Line>, table: string, model: string)
    requires u == Collapse(RewriteAll(t, table, model))
    ensures RewriteAll(u, table, model) == u <==> forall l :: l in t ==> SteadyLine(table, l, model)
  {
    var r := RewriteAll(t, table, model);
    CollapseKeeps(r);
    if forall l :: l in t ==> SteadyLine(table, l, model) {
      forall k | 0 <= k < |u| ensures RewriteLine(table, u[k], model) == u[k] {
        assert u[k] in r;
        var i :| 0 <= i < |r| && r[i] == u[k];
        assert t[i] in t;
        RewriteLineTwice(table, t[i], model);
      }
    } else {
      var l :| l in t && !SteadyLine(table, l, model);
      var i :| 0 <= i < |t| && t[i] == l;
      RewriteLineTwice(table, l, model);
      assert r[i] in r && r[i] in u;
      var k :| 0 <= k < |u| && u[k] == r[i];
      assert RewriteAll(u, table, model)[k] != u[k];
    }
  }

  lemma RemovableIsSteady(t: seq<Line>, model: string)
    requires Removable(t)
    ensures SteadyTable(t, model)
  {}

  lemma TableSettles(t: seq<Line>, model: string)
    requires OneTable(t)
    ensures
      var u := Collapse(KeptTable(t, model));
      OneTable(u) && !Removable(u) && (KeptTable(u, model) == u <==> SteadyTable(t, model)) && Collapse(u) == u
  {
    var u := Collapse(KeptTable(t, model));
    CollapseTwice(KeptTable(t, model));
    if Removable(t) {
      RemovableIsSteady(t, model);
      assert u == [];
    } else {
      StaysKept(t, u, model);
      LinesSettle(t, u, TableOf(t), model);
    }
  }

  // ---------------------------------------------------------------- a second pass over the content

  /** No fallback with a line break is written, so that the lines of the result are read back as
      they are. */
  predicate ReadsBack(lines: seq<Line>, model: string) {
    ReplacesChief(lines) ==> '\n' !in Fallback(model)
  }

  /** A second pass removes no table, collapses nothing, and rewrites no line exactly when the
      content is steady. */
  lemma {:induction false} SecondPass(lines: seq<Line>, model: string)
    requires ReadsBack(lines, model)
    ensures
      var out := Rewritten(lines, model);
      && (Separate(lines) ==> Separate(out))
      && |ByTable(out, model)| == |out| && Collapse(out) == out
      && (ByTable(out, model) == out <==> Steady(lines, model))
    decreases |lines|
  {
    if lines != [] {
      var n := NextHeader(lines, 1);
      var t, rest := lines[..n], lines[n..];
      FirstTable(lines);
      RewrittenStep(lines, model);
      SecondPass(rest, model);
      TableSettles(t, model);
      CollapsedSeparate(t, model);
      JoinSettled(Collapse(KeptTable(t, model)), Rewritten(rest, model), model);
    }
  }

  lemma CollapsedSeparate(t: seq<Line>, model: string)
    requires OneTable(t)
    ensures Separate(t) ==> Separate(Collapse(KeptTable(t, model)))
  {
    if t != [] && !Removable(t) {
      CollapseOneTable(RewriteAll(t, TableOf(t), model));
    }
  }

  lemma JoinSettled(u: seq<Line>, v: seq<Line>, model: string)
    requires OneTable(u) && !Removable(u) && Collapse(u) == u
    requires Separate(v) && |ByTable(v, model)| == |v| && Collapse(v) == v
    ensures |ByTable(u + v, model)| == |u + v| && Collapse(u + v) == u + v
    ensures ByTable(u + v, model) == u + v <==> KeptTable(u, model) == u && ByTable(v, model) == v
  {
    CollapseAppend(u, v);
    ByTableStep(u, v, model);
    SameParts(KeptTable(u, model), u, ByTable(v, model), v);
  }

  lemma SameParts(a: seq<Line>, u: seq<Line>, b: seq<Line>, v: seq<Line>)
    requires |a| == |u| && |b| == |v|
    ensures a + b == u + v <==> a == u && b == v
  {
    if a + b == u + v {
      assert (a + b)[..|a|] == a && (u + v)[..|u|] == u;
      assert (a + b)[|a|..] == b && (u + v)[|u|..] == v;
    }
  }

  lemma {:induction false} ConcatFixed(pieces: seq<seq<Line>>, lines: seq<Line>)
    requires |pieces| == |lines| && forall i :: 0 <= i < |pieces| ==> |pieces[i]| <= 1
    ensures |Concat(pieces)| <= |lines|
    ensures Concat(pieces) == lines ==> forall i :: 0 <= i < |pieces| ==> pieces[i] == [lines[i]]
    ensures |Concat(pieces)| == |lines| ==> forall i :: 0 <= i < |pieces| ==> pieces[i] != []
  {
    if pieces != [] {
      var n := |pieces| - 1;
      var init := Concat(pieces[..n]);
      ConcatFixed(pieces[..n], lines[..n]);
      if Concat(pieces) == lines {
        assert lines[..n] == init && lines[n] == pieces[n][0];
      }
    }
  }

  /** The change flag is up exactly when the lines before collapsing differ from the input. */
  lemma TouchedIffDifferent(lines: seq<Line>, model: string)
    ensures Touched(lines, model) <==> Kept(lines, model) != lines
  {
    ConcatFixed(Pieces(lines, model), lines);
    if !Touched(lines, model) { ConcatSingles(Pieces(lines, model), lines); }
  }

  // ---------------------------------------------------------------- the change flag and the text

  /** A piece is missing, or blank where its line is. */
  predicate Fits(piece: seq<Line>, l: Line) {
    |piece| <= 1 && (piece != [] ==> (piece[0].BlankLine? <==> l.BlankLine?))
  }

  lemma NonBlankSnoc(a: seq<Line>, x: Line)
    ensures NonBlank(a + [x]) == NonBlank(a) + if x.BlankLine? then [] else [x]
  {
    assert (a + [x])[..|a|] == a;
  }

  lemma PieceNonBlank(init: seq<Line>, piece: seq<Line>, x: Line)
    requires Fits(piece, x)
    ensures NonBlank(init + piece) == NonBlank(init) + if x.BlankLine? then [] else piece
  {
    if piece == [] {
      assert init + piece == init && NonBlank(init) + [] == NonBlank(init);
    } else {
      assert piece == [piece[0]];
      NonBlankSnoc(init, piece[0]);
    }
  }

  predicate AllFit(pieces: seq<seq<Line>>, lines: seq<Line>) {
    |pieces| == |lines| && forall i :: 0 <= i < |lines| ==> Fits(pieces[i], lines[i])
  }

  /** Every non-blank line is its own piece. */
  predicate EachKept(pieces: seq<seq<Line>>, lines: seq<Line>) {
    |pieces| == |lines| && forall i :: 0 <= i < |lines| && !lines[i].BlankLine? ==> pieces[i] == [lines[i]]
  }

  lemma EachKeptSnoc(pieces: seq<seq<Line>>, lines: seq<Line>, piece: seq<Line>, x: Line)
    requires EachKept(pieces, lines) && (!x.BlankLine? ==> piece == [x])
    ensures EachKept(pieces + [piece], lines + [x])
  {}

  /** Pieces that leave the same non-blank lines kept each of them. */
  lemma {:induction false} SameNonBlank(pieces: seq<seq<Line>>, lines: seq<Line>)
    requires AllFit(pieces, lines)
    ensures |NonBlank(Concat(pieces))| <= |NonBlank(lines)|
    ensures NonBlank(Concat(pieces)) == NonBlank(lines) ==> EachKept(pieces, lines)
  {
    if lines != [] {
      var n := |lines| - 1;
      SameNonBlank(pieces[..n], lines[..n]);
      SameNonBlankSnoc(pieces[..n], lines[..n], pieces[n], lines[n]);
      assert pieces == pieces[..n] + [pieces[n]] && lines == lines[..n] + [lines[n]];
    }
  }

  lemma SameNonBlankSnoc(pieces: seq<seq<Line>>, lines: seq<Line>, piece: seq<Line>, x: Line)
    requires |NonBlank(Concat(pieces))| <= |NonBlank(lines)| && Fits(piece, x)
    requires NonBlank(Concat(pieces)) == NonBlank(lines) ==> EachKept(pieces, lines)
    ensures |NonBlank(Concat(pieces + [piece]))| <= |NonBlank(lines + [x])|
    ensures NonBlank(Concat(pieces + [piece])) == NonBlank(lines + [x]) ==> EachKept(pieces + [piece], lines + [x])
  {
    var a, b := NonBlank(Concat(pieces)), NonBlank(lines);
    assert (pieces + [piece])[..|pieces|] == pieces;
    PieceNonBlank(Concat(pieces), piece, x);
    NonBlankSnoc(lines, x);
    if NonBlank(Concat(pieces + [piece])) == NonBlank(lines + [x]) {
      if x.BlankLine? {
        assert a + [] == a && b + [] == b;
      } else {
        LastSame(a, piece, b, x);
      }
      EachKeptSnoc(pieces, lines, piece, x);
    }
  }

  lemma LastSame(a: seq<Line>, piece: seq<Line>, b: seq<Line>, x: Line)
    requires |a| <= |b| && |piece| <= 1 && a + piece == b + [x]
    ensures a == b && piece == [x]
  {
    assert |piece| == 1 && a == (a + piece)[..|a|] && b == (b + [x])[..|b|];
  }

  lemma PieceFits(lines: seq<Line>, i: nat, model: string)
    requires i < |lines|
    ensures Fits(KeptLine(lines, i, model), lines[i])
    ensures lines[i].BlankLine? && !Skipped(lines, i) ==> KeptLine(lines, i, model) == [lines[i]]
  {}

  lemma HeaderSkipped(lines: seq<Line>, i: nat)
    requires i < |lines| && Skipped(lines, i)
    ensures Skipped(lines, HeaderAt(lines, i)) && !lines[HeaderAt(lines, i)].BlankLine?
  {
    assert HeaderAt(lines, HeaderAt(lines, i)) == HeaderAt(lines, i);
  }

  /** What is removed or rewritten shows in the non-blank lines. */
  lemma TouchedShows(lines: seq<Line>, model: string)
    requires Touched(lines, model)
    ensures NonBlank(Kept(lines, model)) != NonBlank(lines)
  {
    var pieces := Pieces(lines, model);
    forall i | 0 <= i < |lines| ensures Fits(pieces[i], lines[i]) { PieceFits(lines, i, model); }
    assert AllFit(pieces, lines);
    SameNonBlank(pieces, lines);
    var i :| 0 <= i < |lines| && KeptLine(lines, i, model) != [lines[i]];
    PieceFits(lines, i, model);
    if lines[i].BlankLine? {
      HeaderSkipped(lines, i);
      assert pieces[HeaderAt(lines, i)] == [];
    } else {
      assert pieces[i] != [lines[i]];
    }
  }

  lemma FinishedNonBlank(lines: seq<Line>, out: seq<Line>)
    ensures NonBlank(Finished(lines, out)) == NonBlank(out)
  {
    assert [EMPTY][..0] == [];
    NonBlankSnoc(Joined(out), EMPTY);
  }

  lemma TouchedChangesText(lines: seq<Line>, model: string)
    requires Touched(lines, model)
    ensures Finished(lines, Rewritten(lines, model)) != lines
  {
    TouchedShows(lines, model);
    CollapseKeepsOrder(Kept(lines, model));
    FinishedNonBlank(lines, Rewritten(lines, model));
  }

  predicate TripleAt(lines: seq<Line>, i: nat) {
    i + 2 < |lines| && lines[i].BlankLine? && lines[i + 1].BlankLine? && lines[i + 2].BlankLine?
  }

  /** No three blank lines in a row. */
  predicate TripleFree(lines: seq<Line>) {
    forall i: nat :: i < |lines| ==> !TripleAt(lines, i)
  }

  lemma TripleFreeSnoc(init: seq<Line>, x: Line)
    ensures TripleFree(init + [x]) <==> TripleFree(init) && !(BlankRun(init) >= 2 && x.BlankLine?)
  {
    var lines := init + [x];
    forall i: nat | i + 2 < |init| ensures TripleAt(lines, i) <==> TripleAt(init, i) {}
    if |init| >= 2 {
      assert init[..|init| - 1][|init| - 2] == init[|init| - 2];
      assert TripleAt(lines, |init| - 2) <==> BlankRun(init) >= 2 && x.BlankLine?;
    }
    if TripleFree(lines) {
      forall i: nat | i < |init| ensures !TripleAt(init, i) { assert !TripleAt(lines, i); }
    }
  }

  lemma {:induction false} CollapseShorter(lines: seq<Line>)
    ensures |Collapse(lines)| <= |lines| && (lines != [] ==> Collapse(lines) != [])
  {
    if lines != [] {
      var n := |lines| - 1;
      CollapseShorter(lines[..n]);
      if n == 0 { assert lines[..0] == [] && BlankRun(lines[..0]) == 0; }
    }
  }

  lemma CollapseSnoc(init: seq<Line>, x: Line)
    ensures Collapse(init + [x]) == if BlankRun(init) >= 2 && x.BlankLine? then Collapse(init)
        else Collapse(init) + [x]
  {
    assert (init + [x])[..|init|] == init;
    assert Collapse(init) + [] == Collapse(init);
  }

  lemma CollapseFixedSnoc(init: seq<Line>, x: Line)
    requires Collapse(init) == init <==> TripleFree(init)
    ensures Collapse(init + [x]) == init + [x] <==> TripleFree(init + [x])
  {
    var c := Collapse(init);
    CollapseShorter(init);
    CollapseSnoc(init, x);
    TripleFreeSnoc(init, x);
    if c + [x] == init + [x] { assert c == (c + [x])[..|c|] && init == (init + [x])[..|init|]; }
  }

  /** Collapsing leaves the lines alone exactly when no three blank ones follow each other. */
  lemma {:induction false} CollapseFixed(lines: seq<Line>)
    ensures Collapse(lines) == lines <==> TripleFree(lines)
  {
    if lines != [] {
      var n := |lines| - 1;
      CollapseFixed(lines[..n]);
      CollapseFixedSnoc(lines[..n], lines[n]);
      assert lines == lines[..n] + [lines[n]];
    }
  }

  /** Collapsing does not change the text: there are no three blank lines in a row, or only the empty
      one behind the final newline is dropped, and put back. */
  predicate CollapsesToItself(lines: seq<Line>) {
    || TripleFree(lines)
    || (EndsWithNewline(lines) && TripleFree(lines[..|lines| - 1]) && !EndsWithNewline(lines[..|lines| - 1]))
  }

  lemma CollapseLeaves(lines: seq<Line>)
    requires lines != []
    ensures Finished(lines, Collapse(lines)) == lines <==> CollapsesToItself(lines)
  {
    var init, x := lines[..|lines| - 1], lines[|lines| - 1];
    assert lines == init + [x];
    CollapseFixed(lines);
    CollapseFixed(init);
    CollapseShorter(lines);
    CollapseSnoc(init, x);
    TripleFreeSnoc(init, x);
    PutBack(init, x, Collapse(lines));
  }

  lemma PutBack(init: seq<Line>, x: Line, c: seq<Line>)
    ensures x == EMPTY ==> (c + [EMPTY] == init + [x] <==> c == init)
  {
    if c + [EMPTY] == init + [x] { assert c == (c + [EMPTY])[..|c|] && init == (init + [x])[..|init|]; }
  }

  /** The change flag says whether the text changed exactly when the content is blank, something was
      removed or rewritten, or collapsing alone leaves the text as it is.  An up flag is always right. */
  lemma FlagExact(lines: seq<Line>, model: string)
    ensures
      (Disable(lines, model).1 <==> Disable(lines, model).0 != lines)
      <==> AllBlank(lines) || Touched(lines, model) || CollapsesToItself(lines)
    ensures Disable(lines, model).1 ==> Disable(lines, model).0 != lines
  {
    if Touched(lines, model) {
      TouchedChangesText(lines, model);
    } else if !AllBlank(lines) {
      TouchedIffDifferent(lines, model);
      CollapseLeaves(lines);
    }
  }

  // ---------------------------------------------------------------- what survives

  /** No removable table survives. */
  lemma NoRemovableTableSurvives(lines: seq<Line>, model: string)
    requires ReadsBack(lines, model)
    ensures var out := Rewritten(lines, model); forall i :: 0 <= i < |out| ==> !Skipped(out, i)
  {
    var out := Rewritten(lines, model);
    SecondPass(lines, model);
    forall i | 0 <= i < |out| ensures !Skipped(out, i) { NoneSkippedFull(out, model, i); }
  }

  /** `x` is the rewriting of `l` under the table. */
  predicate ComesFrom(x: Line, table: string, l: Line, stable: bool, model: string) {
    x == RewriteLine(table, l, model) && (table == "tiers" && stable ==> StableTier(l))
  }

  lemma TableLeft(out: seq<Line>, u: seq<Line>, v: seq<Line>, i: nat)
    requires out == u + v && OneTable(u) && Separate(v) && i < |u|
    ensures out[i] == u[i] && TableAt(out, i) == TableOf(u)
  {
    SkippedLeft(u, v, i);
    InOneTable(u, i);
  }

  lemma TableRight(out: seq<Line>, u: seq<Line>, v: seq<Line>, i: nat)
    requires out == u + v && Separate(v) && |u| <= i < |out|
    ensures out[i] == v[i - |u|] && TableAt(out, i) == TableAt(v, i - |u|)
  {
    SkippedRight(u, v, i);
  }

  lemma SplitResult(lines: seq<Line>, model: string)
    returns (t: seq<Line>, rest: seq<Line>, u: seq<Line>, v: seq<Line>)
    requires lines != [] && ReadsBack(lines, model)
    ensures OneTable(t) && |rest| < |lines| && u == Collapse(KeptTable(t, model)) && v == Rewritten(rest, model)
    ensures Rewritten(lines, model) == u + v && OneTable(u) && Separate(v)
    ensures ReadsBack(rest, model) && (StableTiers(lines) ==> StableTable(t) && StableTiers(rest))
  {
    var n := NextHeader(lines, 1);
    t, rest := lines[..n], lines[n..];
    u, v := Collapse(KeptTable(t, model)), Rewritten(rest, model);
    FirstTable(lines);
    RewrittenStep(lines, model);
    TableSettles(t, model);
    SecondPass(rest, model);
  }

  /** Every line of the result is the rewriting of an input line under the same table. */
  lemma {:induction false} RewrittenFrom(lines: seq<Line>, out: seq<Line>, stable: bool, model: string, i: nat)
    returns (l: Line)
    requires ReadsBack(lines, model) && out == Rewritten(lines, model) && i < |out| && (stable ==> StableTiers(lines))
    ensures ComesFrom(out[i], TableAt(out, i), l, stable, model)
    decreases |lines|
  {
    var t, rest, u, v := SplitResult(lines, model);
    if i < |u| {
      l := TableFrom(t, u, stable, model, i);
      TableLeft(out, u, v, i);
    } else {
      l := RewrittenFrom(rest, v, stable, model, i - |u|);
      TableRight(out, u, v, i);
    }
  }

  lemma TableFrom(t: seq<Line>, u: seq<Line>, stable: bool, model: string, i: nat) returns (l: Line)
    requires OneTable(t) && u == Collapse(KeptTable(t, model)) && i < |u| && (stable ==> StableTable(t))
    ensures ComesFrom(u[i], TableOf(u), l, stable, model)
  {
    var r := KeptTable(t, model);
    CollapseKeeps(r);
    StaysKept(t, u, model);
    assert u[i] in r;
    var k :| 0 <= k < |r| && r[k] == u[i];
    l := t[k];
    assert l in t;
  }

  /** No Anthropic entry is left in stable [tiers] lists, and no Anthropic model in [chief] but what
      is read back of a fallback that is one. */
  lemma AnthropicGone(lines: seq<Line>, model: string, i: nat)
    requires ReadsBack(lines, model) && i < |Rewritten(lines, model)|
    ensures
      var out := Rewritten(lines, model);
      && (TableAt(out, i) == "tiers" && out[i].TierLine? && StableTiers(lines) ==>
            forall k :: 0 <= k < |Quoted(out[i].body)| ==> !LooksAnthropic(Quoted(out[i].body)[k]))
      && (TableAt(out, i) == "chief" && AnthropicModel(out[i]) ==> out[i].value == Captured(Fallback(model)))
  {
    var out := Rewritten(lines, model);
    var l := RewrittenFrom(lines, out, StableTiers(lines), model, i);
    if TableAt(out, i) == "tiers" && l.TierLine? && StableTiers(lines) {
      TrimTierTwice(l.body);
      FixedIsClean(out[i].body);
    }
  }

  // ---------------------------------------------------------------- the text, with its final newline

  /** A blank line at the end of lines without a removable table is only carried along. */
  lemma {:induction false} AppendBlank(lines: seq<Line>, model: string)
    requires |ByTable(lines, model)| == |lines|
    ensures ByTable(lines + [EMPTY], model) == ByTable(lines, model) + [EMPTY]
    decreases |lines|
  {
    if lines == [] {
      assert lines + [EMPTY] == [EMPTY] + [];
      ByTableStep([EMPTY], [], model);
    } else {
      var n := NextHeader(lines, 1);
      var t, rest := lines[..n], lines[n..];
      FirstTable(lines);
      NoneRemoved(t, rest, model);
      if rest == [] {
        AppendBlankLast(lines, model);
      } else {
        AppendBlank(rest, model);
        PrependTable(t, rest, rest + [EMPTY], [EMPTY], model);
        Regroup(t, rest, [EMPTY]);
      }
    }
  }

  lemma NoneRemoved(t: seq<Line>, rest: seq<Line>, model: string)
    requires t != [] && OneTable(t) && Separate(rest) && |ByTable(t + rest, model)| == |t + rest|
    ensures !Removable(t) && |ByTable(rest, model)| == |rest|
  {
    ByTableStep(t, rest, model);
    ByTableShape(rest, model);
  }

  lemma AppendBlankLast(t: seq<Line>, model: string)
    requires t != [] && OneTable(t) && !Removable(t)
    ensures ByTable(t + [EMPTY], model) == ByTable(t, model) + [EMPTY]
  {
    SingleTable(t, model);
    SingleTable(t + [EMPTY], model);
    AppendBlankToTable(t, model);
  }

  lemma SingleTable(t: seq<Line>, model: string)
    requires OneTable(t)
    ensures ByTable(t, model) == KeptTable(t, model)
  {
    assert t + [] == t;
    ByTableStep(t, [], model);
  }

  lemma AppendBlankToTable(t: seq<Line>, model: string)
    requires t != [] && OneTable(t) && !Removable(t)
    ensures KeptTable(t + [EMPTY], model) == KeptTable(t, model) + [EMPTY]
  {
    var u := t + [EMPTY];
    assert u[0] == t[0];
    assert forall l :: l in u && AnthropicModel(l) ==> l in t;
    assert !Removable(u);
  }

  /** What a tail does to the later tables it does to the whole. */
  lemma PrependTable(t: seq<Line>, rest: seq<Line>, longer: seq<Line>, x: seq<Line>, model: string)
    requires OneTable(t) && Separate(rest) && Separate(longer)
    requires ByTable(longer, model) == ByTable(rest, model) + x
    ensures ByTable(t + longer, model) == ByTable(t + rest, model) + x
  {
    ByTableStep(t, rest, model);
    ByTableStep(t, longer, model);
    Regroup(KeptTable(t, model), ByTable(rest, model), x);
  }

  lemma Regroup(a: seq<Line>, b: seq<Line>, c: seq<Line>)
    ensures a + b + c == a + (b + c)
  {}

  lemma SecondTouch(r: seq<Line>, once: seq<Line>, model: string)
    requires |ByTable(r, model)| == |r| && (once == r || once == r + [EMPTY])
    ensures Touched(once, model) <==> ByTable(r, model) != r
  {
    KeptIsByTable(once, model);
    TouchedIffDifferent(once, model);
    if once != r {
      AppendBlank(r, model);
      SameParts(ByTable(r, model), r, [EMPTY], [EMPTY]);
    }
  }

  lemma FinishedTwice(r: seq<Line>, once: seq<Line>)
    requires Collapse(r) == r && once != [] && (once == r || (once == r + [EMPTY] && !EndsWithNewline(r)))
    ensures Finished(once, Collapse(once)) == once
  {
    assert (r + [EMPTY])[..|r|] == r;
    assert Collapse(r + [EMPTY]) == r || Collapse(r + [EMPTY]) == r + [EMPTY];
  }

  lemma SecondDisable(r: seq<Line>, once: seq<Line>, model: string)
    requires Collapse(r) == r && |ByTable(r, model)| == |r| && !AllBlank(once)
    requires once == r || (once == r + [EMPTY] && !EndsWithNewline(r))
    ensures Disable(once, model).1 <==> ByTable(r, model) != r
    ensures ByTable(r, model) == r ==> Disable(once, model).0 == once
  {
    SecondTouch(r, once, model);
    TouchedIffDifferent(once, model);
    FinishedTwice(r, once);
  }

  /** Disabling is idempotent, reporting no change the second time, exactly when no [tiers] list
      keeps a blank entry beside another one and no [chief] model is replaced by a fallback of
      which the part before its first quote looks like an Anthropic model. */
  lemma DisableTwice(lines: seq<Line>, model: string)
    requires ReadsBack(lines, model)
    ensures var once := Disable(lines, model).0; Disable(once, model) == (once, false) <==> Steady(lines, model)
  {
    if AllBlank(lines) {
      BlankSteady(lines, model);
    } else {
      var r := Rewritten(lines, model);
      var once := Finished(lines, r);
      SecondPass(lines, model);
      SecondText(lines, r, once, model);
    }
  }

  lemma SecondText(lines: seq<Line>, r: seq<Line>, once: seq<Line>, model: string)
    requires once == Joined(r) || (once == Joined(r) + [EMPTY] && !EndsWithNewline(Joined(r)))
    requires Collapse(r) == r && |ByTable(r, model)| == |r|
    requires ByTable(r, model) == r <==> Steady(lines, model)
    ensures Disable(once, model) == (once, false) <==> Steady(lines, model)
  {
    if AllBlank(once) {
      assert forall i :: 0 <= i < |r| ==> r[i] == once[i];
      BlankByTable(r, model);
    } else {
      assert r != [];
      SecondDisable(r, once, model);
    }
  }

  lemma {:induction false} BlankByTable(lines: seq<Line>, model: string)
    requires AllBlank(lines)
    ensures ByTable(lines, model) == lines
    decreases |lines|
  {
    if lines != [] {
      FirstTable(lines);
      BlankByTable(lines[NextHeader(lines, 1)..], model);
    }
  }

  lemma {:induction false} BlankSteady(lines: seq<Line>, model: string)
    requires AllBlank(lines)
    ensures Steady(lines, model)
    decreases |lines|
  {
    if lines != [] {
      BlankSteady(lines[NextHeader(lines, 1)..], model);
    }
  }

  // ---------------------------------------------------------------- tables in the text

  /** Line `h` is the header that line `i` stands under. */
  ghost predicate Heads(lines: seq<Line>, h: nat, i: nat) {
    h <= i < |lines| && lines[h].Header? && forall j :: h < j <= i ==> !lines[j].Header?
  }

  /** The name of a table: its header without surrounding white space, in lower case. */
  lemma {:induction false} HeadsTable(lines: seq<Line>, h: nat, i: nat)
    requires Heads(lines, h, i)
    ensures HeaderAt(lines, i) == h && TableAt(lines, i) == ToLower(TrimSpace(lines[h].name))
    decreases i
  {
    if i > h { HeadsTable(lines, h, i - 1); }
  }

  /** A table that goes, in words: the Claude CLI table, and a provider whose name or one of whose
      models mentions Anthropic. */
  ghost predicate Doomed(lines: seq<Line>, h: nat)
    requires h < |lines| && lines[h].Header?
  {
    var name := ToLower(TrimSpace(lines[h].name));
    || name == "dispatch.cli.claude"
    || ("providers." <= name
        && (Mentions(name[10..])
            || exists i: nat :: Heads(lines, h, i) && lines[i].ModelLine? && Mentions(lines[i].value)))
  }

  lemma BlockHeads(lines: seq<Line>, h: nat, i: nat)
    requires h < |lines| && lines[h].Header?
    ensures Heads(lines, h, i) <==> h <= i < NextHeader(lines, h + 1)
  {
    NextHeaderFirst(lines, h + 1);
  }

  lemma BlockLine(lines: seq<Line>, h: nat, l: Line)
    requires h < |lines| && lines[h].Header?
    ensures l in Block(lines, h) <==> exists i: nat :: Heads(lines, h, i) && lines[i] == l
  {
    var block := Block(lines, h);
    if l in block {
      var j :| 0 <= j < |block| && block[j] == l;
      BlockHeads(lines, h, h + j);
      assert lines[h + j] == l;
    }
    if i: nat :| Heads(lines, h, i) && lines[i] == l {
      BlockHeads(lines, h, i);
      assert block[i - h] == l;
    }
  }

  lemma RemovableIsDoomed(lines: seq<Line>, h: nat)
    requires h < |lines| && lines[h].Header?
    ensures Removable(Block(lines, h)) <==> Doomed(lines, h)
  {
    var block, name := Block(lines, h), ToLower(TrimSpace(lines[h].name));
    assert block[0] == lines[h];
    if "providers." <= name {
      LooksAnthropicMeans(name[10..]);
      if l :| l in block && AnthropicModel(l) {
        LooksAnthropicMeans(l.value);
        BlockLine(lines, h, l);
      }
      if i: nat :| Heads(lines, h, i) && lines[i].ModelLine? && Mentions(lines[i].value) {
        LooksAnthropicMeans(lines[i].value);
        BlockLine(lines, h, lines[i]);
        assert AnthropicModel(lines[i]);
      }
    }
  }

  lemma NoneSkippedInText(lines: seq<Line>, model: string, out: seq<Line>, i: nat)
    requires ReadsBack(lines, model) && out == Disable(lines, model).0 && i < |out|
    ensures !Skipped(out, i)
  {
    if AllBlank(lines) {
      BlankNotSkipped(out, i);
    } else {
      SecondPass(lines, model);
      NoneSkippedWith(lines, Rewritten(lines, model), model, out, i);
    }
  }

  lemma BlankNotSkipped(out: seq<Line>, i: nat)
    requires AllBlank(out) && i < |out|
    ensures !Skipped(out, i)
  {
    NoHeadTable(out, i);
  }

  lemma NoneSkippedWith(lines: seq<Line>, r: seq<Line>, model: string, out: seq<Line>, i: nat)
    requires |ByTable(r, model)| == |r| && out == Finished(lines, r) && i < |out|
    ensures !Skipped(out, i)
  {
    if r == [] {
      BlankNotSkipped(out, i);
    } else {
      SameLength(r, out, model);
      NoneSkippedFull(out, model, i);
    }
  }

  lemma NoneSkippedFull(out: seq<Line>, model: string, i: nat)
    requires |ByTable(out, model)| == |out| && i < |out|
    ensures !Skipped(out, i)
  {
    KeptIsByTable(out, model);
    ConcatFixed(Pieces(out, model), out);
    assert Pieces(out, model)[i] != [];
  }

  lemma SameLength(r: seq<Line>, out: seq<Line>, model: string)
    requires |ByTable(r, model)| == |r| && (out == r || out == r + [EMPTY])
    ensures |ByTable(out, model)| == |out|
  {
    AppendBlank(r, model);
  }

  /** No table of the returned text is the Claude CLI's, and under a provider neither the name nor any
      model mentions Anthropic. */
  lemma ProvidersGone(lines: seq<Line>, model: string, out: seq<Line>, h: nat, i: nat)
    requires ReadsBack(lines, model) && out == Disable(lines, model).0 && Heads(out, h, i)
    ensures
      var name := ToLower(TrimSpace(out[h].name));
      && name != "dispatch.cli.claude"
      && ("providers." <= name ==> !Mentions(name[10..]) && (out[i].ModelLine? ==> !Mentions(out[i].value)))
  {
    NoneSkippedInText(lines, model, out, i);
    HeadsTable(out, h, i);
    RemovableIsDoomed(out, h);
  }

  /** Every non-blank line of every other table is in the returned text, as it was unless it stands
      under [tiers] or [chief]; so are the lines before the first table. */
  lemma OthersStay(lines: seq<Line>, model: string, h: int, i: nat)
    requires i < |lines| && !lines[i].BlankLine? && -1 <= h
    requires if h < 0 then forall j :: 0 <= j <= i ==> !lines[j].Header? else Heads(lines, h, i) && !Doomed(lines, h)
    ensures
      var name := if h < 0 then "" else ToLower(TrimSpace(lines[h].name));
      && RewriteLine(name, lines[i], model) in Disable(lines, model).0
      && (name != "tiers" && name != "chief" ==> lines[i] in Disable(lines, model).0)
  {
    if h >= 0 {
      HeadsTable(lines, h, i);
      RemovableIsDoomed(lines, h);
    } else {
      NoHeadTable(lines, i);
    }
    PieceKept(lines, i, model);
    CollapseKeeps(Kept(lines, model));
    assert !AllBlank(lines);
  }

  lemma {:induction false} NoHeadTable(lines: seq<Line>, i: nat)
    requires i < |lines| && forall j :: 0 <= j <= i ==> !lines[j].Header?
    ensures HeaderAt(lines, i) == -1
  {
    if i > 0 { NoHeadTable(lines, i - 1); }
  }

  lemma {:induction false} InConcat(pieces: seq<seq<Line>>, i: nat, x: Line)
    requires i < |pieces| && x in pieces[i]
    ensures x in Concat(pieces)
  {
    if i < |pieces| - 1 { InConcat(pieces[..|pieces| - 1], i, x); }
  }

  lemma PieceKept(lines: seq<Line>, i: nat, model: string)
    requires i < |lines| && !Skipped(lines, i)
    ensures RewriteLine(TableAt(lines, i), lines[i], model) in Kept(lines, model)
    ensures RewriteLine(TableAt(lines, i), lines[i], model).BlankLine? <==> lines[i].BlankLine?
  {
    InConcat(Pieces(lines, model), i, RewriteLine(TableAt(lines, i), lines[i], model));
  }

  lemma ReplacedText(l: Line, f: string)
    requires l.ModelLine?
    ensures var r := Replaced(l, f); r.pre + r.value + r.post == l.pre + f + l.post
  {
    assert f == f[..IndexOf(f, '"')] + f[IndexOf(f, '"')..];
  }

  /** The rewriting of a line: the fallback, or the default for a blank one, between the quotes of an
      Anthropic model of [chief]; the tier lists of [tiers]; and nothing else. */
  lemma RewriteExact(table: string, l: Line, model: string, f: string)
    requires f == if TrimSpace(model) == "" then "gpt-5.3-codex" else model
    ensures
      var r := RewriteLine(table, l, model);
      if table == "chief" && l.ModelLine? && Mentions(l.value) then
        r.ModelLine? && r.pre + r.value + r.post == l.pre + f + l.post
      else if table == "tiers" && l.TierLine? then r == l.(body := TrimTier(l.body))
      else r == l
  {
    if l.ModelLine? {
      LooksAnthropicMeans(l.value);
      if table == "chief" && Mentions(l.value) {
        assert RewriteLine(table, l, model) == Replaced(l, f);
        ReplacedText(l, f);
      }
    }
  }

  // ---------------------------------------------------------------- what is kept

  predicate Edited(t: seq<Line>) {
    Removable(t) || TableOf(t) == "tiers" || TableOf(t) == "chief"
  }

  function OutsideTable(t: seq<Line>): seq<Line> {
    if Edited(t) then [] else Collapse(t)
  }

  /** The lines outside removable, [tiers] and [chief] tables, in order and without surplus blanks. */
  function Outside(lines: seq<Line>): seq<Line>
    decreases |lines|
  {
    if lines == [] then []
    else
      var n := NextHeader(lines, 1);
      OutsideTable(lines[..n]) + Outside(lines[n..])
  }

  lemma OutsideStep(t: seq<Line>, rest: seq<Line>)
    requires OneTable(t) && Separate(rest)
    ensures Outside(t + rest) == OutsideTable(t) + Outside(rest)
  {
    if t == [] {
      assert t + rest == rest;
    } else {
      FirstTableOf(t, rest);
    }
  }

  lemma TableKeepsOutside(t: seq<Line>, model: string)
    requires OneTable(t)
    ensures OutsideTable(Collapse(KeptTable(t, model))) == OutsideTable(t)
  {
    var u := Collapse(KeptTable(t, model));
    if Removable(t) {
      assert u == [];
    } else {
      StaysKept(t, u, model);
      if !Edited(t) {
        assert RewriteAll(t, TableOf(t), model) == t;
        CollapseTwice(t);
      }
    }
  }

  /** The lines outside removed tables, [tiers] and [chief] are kept as they are and in order, blank
      ones included, but for those beyond two in a row. */
  lemma {:induction false} OutsideKept(lines: seq<Line>, model: string)
    requires ReadsBack(lines, model)
    ensures Outside(Rewritten(lines, model)) == Outside(lines)
    decreases |lines|
  {
    if lines != [] {
      var n := NextHeader(lines, 1);
      var t, rest := lines[..n], lines[n..];
      FirstTable(lines);
      RewrittenStep(lines, model);
      TableSettles(t, model);
      SecondPass(rest, model);
      OutsideStep(Collapse(KeptTable(t, model)), Rewritten(rest, model));
      TableKeepsOutside(t, model);
      OutsideKept(rest, model);
    }
  }

  // ---------------------------------------------------------------- two inputs

  const CHIEF := [Header("[chief]", "chief"), ModelLine("model = \"", "claude", "\"")]

  lemma ChiefIsReplaced()
    ensures StableTiers(CHIEF) && ReplacesChief(CHIEF)
  {
    TrimSpaceFacts("chief");
    assert ToLower("chief") == "chief";
    assert NextHeader(CHIEF, 1) == 2 && CHIEF[..2] == CHIEF && CHIEF[2..] == [];
    assert CHIEF[1] in CHIEF && AnthropicModel(CHIEF[1]);
  }

  lemma QuotedFallback(rest: string)
    requires '\n' !in rest
    ensures var model := "claude\"" + rest; '\n' !in Fallback(model) && !SafeFallback(model)
  {
    var model := "claude\"" + rest;
    TrimLeftAppend("", "claude");
    assert model == "claude" + ("\"" + rest) && model[0] == 'c' && model[6] == '"';
    FirstStays(model);
    IndexOfAppend("claude", '"', "\"" + rest);
    assert model[..6] == "claude";
  }

  lemma FirstStays(s: string)
    requires s != "" && !IsSpace(s[0])
    ensures TrimSpace(s) != ""
  {
    assert TrimLeft(s) == s && s == [s[0]] + s[1..];
    TrimRightAppend([s[0]], s[1..]);
  }

  /** A fallback that reads back as an Anthropic model: the second pass replaces it again. */
  lemma QuotedFallbackChanges(rest: string)
    requires '\n' !in rest
    ensures
      var model := "claude\"" + rest;
      var once := Disable(CHIEF, model).0;
      StableTiers(CHIEF) && Disable(once, model) != (once, false)
  {
    ChiefIsReplaced();
    QuotedFallback(rest);
    DisableTwice(CHIEF, "claude\"" + rest);
  }

  lemma BlankRunsCollapse(text: string)
    ensures Collapse([EMPTY, EMPTY, EMPTY, OtherLine(text)]) == [EMPTY, EMPTY, OtherLine(text)]
  {
    var one, two, three := [EMPTY], [EMPTY, EMPTY], [EMPTY, EMPTY, EMPTY];
    var lines := three + [OtherLine(text)];
    assert one[..0] == [] && two[..1] == one && three[..2] == two && lines[..3] == three;
    assert BlankRun(one) == 1 && BlankRun(two) == 2 && BlankRun(three) == 3 && BlankRun(lines) == 0;
    assert Collapse(one) == one && Collapse(two) == two && Collapse(three) == two;
    assert lines == [EMPTY, EMPTY, EMPTY, OtherLine(text)];
  }

  /** The change flag does not see collapsing: three blank lines become two with the flag down. */
  lemma FlagMissesCollapse(text: string)
    ensures
      var lines := [EMPTY, EMPTY, EMPTY, OtherLine(text)];
      Disable(lines, "").0 == [EMPTY, EMPTY, OtherLine(text)] && !Disable(lines, "").1
  {
    var lines := [EMPTY, EMPTY, EMPTY, OtherLine(text)];
    assert !AllBlank(lines) by { assert !lines[3].BlankLine?; }
    InPrelude(lines, "");
    BlankRunsCollapse(text);
    TouchedIffDifferent(lines, "");
  }

  lemma InPrelude(lines: seq<Line>, model: string)
    requires forall i :: 0 <= i < |lines| ==> !lines[i].Header?
    ensures Kept(lines, model) == lines
  {
    KeptOneTable(lines, model);
    assert RewriteAll(lines, TableOf(lines), model) == lines;
  }
}
