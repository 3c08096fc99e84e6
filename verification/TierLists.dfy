/** Trimming Anthropic entries out of a tier list, as text
    (cmd/chum/config_quickcmd.go, trimAnthropicTierValues). */
module TierLists {
  import opened Text

  predicate LooksAnthropic(value: string) {
    var lower := ToLower(TrimSpace(value));
    Contains(lower, "claude") || Contains(lower, "anthropic")
  }

  /** "claude" or "anthropic" stands somewhere in the text, in any case. */
  ghost predicate Mentions(value: string) {
    exists i :: StartsAt(ToLower(value), i, "claude") || StartsAt(ToLower(value), i, "anthropic")
  }

  lemma LooksAnthropicMeans(value: string)
    ensures LooksAnthropic(value) <==> Mentions(value)
  {
    var lower := ToLower(TrimSpace(value));
    ContainsMeans(lower, "claude");
    ContainsMeans(lower, "anthropic");
    TrimKeepsWord(value, "claude");
    TrimKeepsWord(value, "anthropic");
  }

  /** The non-empty quoted strings, found left to right without overlap. */
  function Quoted(s: string): seq<string>
    decreases |s|
  {
    if s == "" then []
    else if s[0] != '"' then Quoted(s[1..])
    else
      var k := IndexOf(s[1..], '"');
      if k == |s| - 1 then []
      else if k == 0 then Quoted(s[1..])
      else [s[1..k + 1]] + Quoted(s[k + 2..])
  }

  /** The trimmed entries that are not Anthropic models. */
  function Names(values: seq<string>): seq<string> {
    if values == [] then []
    else
      var name := TrimSpace(values[0]);
      (if LooksAnthropic(name) then [] else [name]) + Names(values[1..])
  }

  function Quote(name: string): string {
    "\"" + name + "\""
  }

  function Render(names: seq<string>): string {
    if names == [] then ""
    else if |names| == 1 then Quote(names[0])
    else Quote(names[0]) + ", " + Render(names[1..])
  }

  function TrimTier(body: string): string {
    var values := Quoted(body);
    if values == [] then body else Render(Names(values))
  }

  /** Entries that survive a second reading: no blank one, unless it is the only one. */
  predicate Stable(names: seq<string>) {
    names == [""] || forall i :: 0 <= i < |names| ==> names[i] != ""
  }

  /** Reading a quoted entry returns it and goes on behind it. */
  lemma QuotedHead(name: string, rest: string)
    requires name != "" && '"' !in name
    ensures Quoted(Quote(name) + rest) == [name] + Quoted(rest)
  {
    var s := Quote(name) + rest;
    assert s[1..] == name + ("\"" + rest);
    IndexOfAppend(name, '"', "\"" + rest);
    assert s[1..|name| + 1] == name && s[|name| + 2..] == rest;
  }

  /** A quote directly followed by another one starts no entry. */
  lemma QuotedEmpty(rest: string)
    ensures Quoted("\"\"" + rest) == Quoted("\"" + rest)
  {
    var s := "\"\"" + rest;
    assert s[1..] == "\"" + rest;
  }

  lemma NonBlankEntryRead(names: seq<string>)
    requires names != [] && names[0] != "" && '"' !in names[0]
    ensures Quoted(Render(names)) == [names[0]] + Quoted(Render(names[1..]))
  {
    if |names| == 1 {
      QuotedHead(names[0], "");
      assert Quote(names[0]) + "" == Quote(names[0]);
    } else {
      var tail := Render(names[1..]);
      QuotedHead(names[0], ", " + tail);
      assert Render(names) == Quote(names[0]) + (", " + tail);
    }
  }

  lemma {:induction false} QuotedRender(names: seq<string>)
    requires forall i :: 0 <= i < |names| ==> names[i] != "" && '"' !in names[i]
    ensures Quoted(Render(names)) == names
  {
    if names != [] {
      NonBlankEntryRead(names);
      QuotedRender(names[1..]);
    }
  }

  predicate Clean(name: string) {
    TrimSpace(name) == name && !LooksAnthropic(name) && '"' !in name
  }

  lemma {:induction false} NamesOfClean(names: seq<string>)
    requires forall i :: 0 <= i < |names| ==> Clean(names[i])
    ensures Names(names) == names
  {
    if names != [] { NamesOfClean(names[1..]); }
  }

  lemma {:induction false} QuotedHasNoQuote(s: string)
    ensures forall i :: 0 <= i < |Quoted(s)| ==> '"' !in Quoted(s)[i]
    decreases |s|
  {
    if s != "" {
      if s[0] != '"' {
        QuotedHasNoQuote(s[1..]);
      } else {
        var k := IndexOf(s[1..], '"');
        if k == 0 && k != |s| - 1 {
          QuotedHasNoQuote(s[1..]);
        } else if k != |s| - 1 {
          QuotedHasNoQuote(s[k + 2..]);
          NoneBefore(s[1..], '"');
          assert s[1..k + 1] == s[1..][..k];
        }
      }
    }
  }

  lemma {:induction false} NamesClean(values: seq<string>)
    requires forall i :: 0 <= i < |values| ==> '"' !in values[i]
    ensures forall i :: 0 <= i < |Names(values)| ==> Clean(Names(values)[i])
  {
    if values != [] {
      NamesClean(values[1..]);
      var name := TrimSpace(values[0]);
      TrimSpaceFacts(values[0]);
      TrimSpaceFacts(name);
    }
  }

  /** Trimming a tier list twice is trimming it once, when its entries are stable. */
  lemma TrimTierTwice(body: string)
    requires Stable(Names(Quoted(body)))
    ensures TrimTier(TrimTier(body)) == TrimTier(body)
  {
    var names := Names(Quoted(body));
    QuotedHasNoQuote(body);
    NamesClean(Quoted(body));
    if Quoted(body) != [] {
      if names == [""] {
        LoneBlankRead();
      } else {
        QuotedRender(names);
        NamesOfClean(names);
      }
    }
  }

  // What a second reading makes of a list with blank entries.

  /** A leading blank entry is misread: its closing quote and the next opening one are taken for
      an entry made of the separator. */
  lemma BlankEntryRead(names: seq<string>)
    requires |names| >= 2 && names[0] == ""
    ensures Quoted(Render(names)) != [] && Quoted(Render(names))[0] == ", "
  {
    var tail := Render(names[1..]);
    assert Render(names) == "\"\"" + (", " + tail);
    QuotedEmpty(", " + tail);
    SeparatorRead(tail);
  }

  lemma SeparatorRead(tail: string)
    requires tail != "" && tail[0] == '"'
    ensures Quoted("\"" + (", " + tail)) == [", "] + Quoted(tail[1..])
  {
    assert "\"" + (", " + tail) == Quote(", ") + tail[1..];
    QuotedHead(", ", tail[1..]);
  }

  lemma LoneBlankRead()
    ensures Quoted(Render([""])) == []
  {
    QuotedEmpty("");
    assert Render([""]) == "\"\"" && "\"\"" + "" == "\"\"" && "\"" + "" == "\"";
    assert Quoted("\"") == [] by { assert "\""[1..] == ""; }
  }

  lemma SeparatorName()
    ensures TrimSpace(", ") == "," && !LooksAnthropic(",")
  {
    assert ", "[..1] == "," && TrimLeft(", ") == ", " && TrimRight(", ") == TrimRight(",");
    TrimSpaceFacts(",");
    ShortLacks(ToLower(","), "claude");
    ShortLacks(ToLower(","), "anthropic");
  }

  lemma {:induction false} ShortLacks(s: string, needle: string)
    requires |s| < |needle|
    ensures !Contains(s, needle)
    decreases |s|
  {
    if s != "" { ShortLacks(s[1..], needle); }
  }

  lemma {:induction false} UnstableReadsDifferently(names: seq<string>)
    requires (forall i :: 0 <= i < |names| ==> Clean(names[i])) && !Stable(names)
    ensures Quoted(Render(names)) != [] && Names(Quoted(Render(names))) != names
  {
    if names[0] == "" {
      BlankEntryRead(names);
      SeparatorName();
      var r := Quoted(Render(names));
      assert Names(r)[0] == ",";
    } else {
      NonBlankEntryRead(names);
      var rest := names[1..];
      var r := Quoted(Render(rest));
      assert ([names[0]] + r)[1..] == r;
      assert Names([names[0]] + r) == [names[0]] + Names(r);
      if rest == [""] {
        LoneBlankRead();
        assert |Names(r)| == 0;
      } else {
        UnstableReadsDifferently(rest);
        assert Names(r) != rest;
      }
      assert ([names[0]] + Names(r))[1..] == Names(r);
    }
  }

  lemma {:induction false} RenderInjective(a: seq<string>, b: seq<string>)
    requires forall i :: 0 <= i < |a| ==> '"' !in a[i]
    requires forall i :: 0 <= i < |b| ==> '"' !in b[i]
    requires Render(a) == Render(b)
    ensures a == b
  {
    if a == [] || b == [] {
    } else {
      var ta := if |a| == 1 then "" else ", " + Render(a[1..]);
      var tb := if |b| == 1 then "" else ", " + Render(b[1..]);
      assert Render(a) == Quote(a[0]) + ta && Render(b) == Quote(b[0]) + tb;
      HeadInjective(a[0], ta, b[0], tb);
      assert a == [a[0]] + a[1..] && b == [b[0]] + b[1..];
      if |a| > 1 && |b| > 1 {
        assert ta[2..] == Render(a[1..]) && tb[2..] == Render(b[1..]);
        RenderInjective(a[1..], b[1..]);
      }
    }
  }

  lemma HeadInjective(x: string, tx: string, y: string, ty: string)
    requires '"' !in x && '"' !in y && Quote(x) + tx == Quote(y) + ty
    ensures x == y && tx == ty
  {
    var s := Quote(x) + tx;
    assert s[1..] == x + ("\"" + tx) && s[1..] == y + ("\"" + ty);
    IndexOfAppend(x, '"', "\"" + tx);
    IndexOfAppend(y, '"', "\"" + ty);
    assert s[1..][..|x|] == x && s[1..][..|y|] == y;
    assert s[|x| + 2..] == tx && s[|y| + 2..] == ty;
  }

  /** Trimming twice equals trimming once exactly when no entry that is kept is blank, or one
      blank entry is all that is kept. */
  lemma TrimTierIdempotentIff(body: string)
    ensures TrimTier(TrimTier(body)) == TrimTier(body) <==> Stable(Names(Quoted(body)))
  {
    var names := Names(Quoted(body));
    if Stable(names) {
      TrimTierTwice(body);
    } else {
      QuotedHasNoQuote(body);
      NamesClean(Quoted(body));
      UnstableReadsDifferently(names);
      var again := Quoted(Render(names));
      QuotedHasNoQuote(Render(names));
      NamesClean(again);
      if Render(Names(again)) == Render(names) { RenderInjective(Names(again), names); }
    }
  }

  /** Such a list: a blank entry between two others is rewritten once more by the second pass. */
  lemma BlankEntryChanges(a: string, b: string)
    requires Clean(a) && Clean(b) && a != "" && b != ""
    ensures var body := Render([a, " ", b]); TrimTier(TrimTier(body)) != TrimTier(body)
  {
    var values := [a, " ", b];
    QuotedRender(values);
    assert values[1..] == [" ", b] && [" ", b][1..] == [b] && [b][1..] == [];
    assert Names([b]) == [b] && Names([" ", b]) == ["", b];
    assert Names(values) == [a, "", b] && [a, "", b][1] == "";
    TrimTierIdempotentIff(Render(values));
  }

  // ---------------------------------------------------------------- what is kept

  lemma {:induction false} NamesAppend(a: seq<string>, b: seq<string>)
    ensures Names(a + b) == Names(a) + Names(b)
  {
    if a == [] {
      assert a + b == b;
    } else {
      assert (a + b)[1..] == a[1..] + b;
      NamesAppend(a[1..], b);
    }
  }

  /** The loop over the matched entries. */
  method TrimTierValues(body: string) returns (out: string)
    ensures out == TrimTier(body)
  {
    var values := Quoted(body);
    if |values| == 0 {
      return body;
    }
    var filtered := [];
    for i := 0 to |values|
      invariant filtered == Names(values[..i])
    {
      assert values[..i + 1] == values[..i] + [values[i]];
      NamesAppend(values[..i], [values[i]]);
      var name := TrimSpace(values[i]);
      if LooksAnthropic(name) {
        continue;
      }
      filtered := filtered + [name];
    }
    assert values[..|values|] == values;
    return Render(filtered);
  }

  /** Exactly the trimmed entries that do not look like Anthropic models are kept. */
  lemma {:induction false} NamesExact(values: seq<string>, x: string)
    ensures x in Names(values) <==> !LooksAnthropic(x) && exists i :: 0 <= i < |values| && TrimSpace(values[i]) == x
  {
    if values != [] {
      NamesExact(values[1..], x);
      assert forall i :: 0 <= i < |values| - 1 ==> values[1..][i] == values[i + 1];
      if x in Names(values[1..]) {
        var i :| 0 <= i < |values[1..]| && TrimSpace(values[1..][i]) == x;
        assert TrimSpace(values[i + 1]) == x;
      }
      if i :| 0 <= i < |values| && TrimSpace(values[i]) == x && i > 0 {
        assert TrimSpace(values[1..][i - 1]) == x;
      }
    }
  }

  /** Reading the trimmed list back gives the kept entries, in order. */
  lemma TrimTierKeeps(body: string)
    requires Quoted(body) != [] && forall i :: 0 <= i < |Names(Quoted(body))| ==> Names(Quoted(body))[i] != ""
    ensures Quoted(TrimTier(body)) == Names(Quoted(body))
  {
    QuotedHasNoQuote(body);
    NamesClean(Quoted(body));
    QuotedRender(Names(Quoted(body)));
  }

  /** A list that trimming leaves alone has no Anthropic entry. */
  lemma FixedIsClean(body: string)
    requires TrimTier(body) == body
    ensures forall i :: 0 <= i < |Quoted(body)| ==> !LooksAnthropic(Quoted(body)[i])
  {
    TrimTierIdempotentIff(body);
    if Quoted(body) != [] {
      if Names(Quoted(body)) == [""] {
        LoneBlankRead();
      } else {
        TrimTierKeeps(body);
        QuotedHasNoQuote(body);
        NamesClean(Quoted(body));
      }
    }
  }
}
