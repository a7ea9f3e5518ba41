/**
 Taking every section of one's own server out of another client's TOML file, line by line.
 */
module PlugUnlink {
  import opened Common
  import opened TomlReader
  import opened TomlText

  // -------------------------------------------------------------------------
  // Lines and trimming
  // -------------------------------------------------------------------------

  // The characters Unicode calls White_Space.
  predicate IsSpace(c: char) {
    || '\t' <= c <= '\r' || c == ' ' || c == '\U{85}' || c == '\U{A0}' || c == '\U{1680}'
    || '\U{2000}' <= c <= '\U{200A}' || c == '\U{2028}' || c == '\U{2029}' || c == '\U{202F}'
    || c == '\U{205F}' || c == '\U{3000}'
  }

  function TrimStart(s: string): string {
    if s != [] && IsSpace(s[0]) then TrimStart(s[1..]) else s
  }

  function TrimEnd(s: string): string {
    if s != [] && IsSpace(s[|s| - 1]) then TrimEnd(s[..|s| - 1]) else s
  }

  function Trim(s: string): string {
    TrimStart(TrimEnd(s))
  }

  function StripReturn(line: string): string {
    if line != [] && line[|line| - 1] == '\r' then line[..|line| - 1] else line
  }

  function StripReturns(lines: seq<string>): seq<string> {
    seq(|lines|, i requires 0 <= i < |lines| => StripReturn(lines[i]))
  }

  // A line ends at '\n', with one '\r' before it dropped; what follows the last
  // line break is a line of its own only if there is something.
  function Lines(text: string): seq<string> {
    var pieces := SplitLines(text);
    var last := pieces[|pieces| - 1];
    StripReturns(pieces[..|pieces| - 1]) + (if last == [] then [] else [last])
  }

  // -------------------------------------------------------------------------
  // The lines kept
  // -------------------------------------------------------------------------

  predicate PlugHeader(line: string) {
    var t := Trim(line);
    t == "[mcp_servers.plug]" || t == "[[mcp_servers.plug]]" || t == "[mcp_servers.\"plug\"]"
  }

  // A header that ends the skipping of a section.
  predicate EndsSkipping(line: string) {
    var t := Trim(line);
    t != [] && t[0] == '[' && !Contains(t, ".plug") && !Contains(t, "\"plug\"")
  }

  datatype Kind = Mine | Other | Setting

  function KindOf(line: string): Kind {
    if PlugHeader(line) then Mine else if EndsSkipping(line) then Other else Setting
  }

  function Kinds(lines: seq<string>): seq<Kind> {
    seq(|lines|, i requires 0 <= i < |lines| => KindOf(lines[i]))
  }

  function SkippingAfter(kinds: seq<Kind>): bool {
    if kinds == [] then false
    else kinds[|kinds| - 1] == Mine || (SkippingAfter(kinds[..|kinds| - 1]) && kinds[|kinds| - 1] != Other)
  }

  function Outside<T>(items: seq<T>, kinds: seq<Kind>): seq<T>
    requires |items| == |kinds|
  {
    if items == [] then []
    else Outside(items[..|items| - 1], kinds[..|items| - 1])
         + (if SkippingAfter(kinds) then [] else [items[|items| - 1]])
  }

  function Kept(lines: seq<string>): seq<string> {
    Outside(lines, Kinds(lines))
  }

  function Unlinked(content: string): string {
    Join(Kept(Lines(content)), "\n")
  }

  lemma OutsideStep<T>(items: seq<T>, kinds: seq<Kind>, i: nat)
    requires |items| == |kinds| && i < |items|
    ensures SkippingAfter(kinds[..i + 1]) <==> kinds[i] == Mine || (SkippingAfter(kinds[..i]) && kinds[i] != Other)
    ensures Outside(items[..i + 1], kinds[..i + 1]) ==
            Outside(items[..i], kinds[..i]) + (if SkippingAfter(kinds[..i + 1]) then [] else [items[i]])
  {
    assert items[..i + 1][..i] == items[..i] && kinds[..i + 1][..i] == kinds[..i];
  }

  method UnlinkToml(content: string) returns (result: string)
    ensures result == Unlinked(content)
  {
    var lines := Lines(content);
    ghost var kinds := Kinds(lines);
    var output: seq<string> := [];
    var skipping := false;
    for i := 0 to |lines|
      invariant skipping == SkippingAfter(kinds[..i])
      invariant output == Outside(lines[..i], kinds[..i])
    {
      var line := lines[i];
      OutsideStep(lines, kinds, i);
      if PlugHeader(line) {
        skipping := true;
        continue;
      }
      if skipping {
        if EndsSkipping(line) {
          skipping := false;
        } else {
          continue;
        }
      }
      output := output + [line];
    }
    assert lines[..|lines|] == lines && kinds[..|lines|] == kinds;
    result := Join(output, "\n");
  }

  // -------------------------------------------------------------------------
  // Which lines go
  // -------------------------------------------------------------------------

  // Position i lies in a section that starts at a plug header and has not met an
  // ending header since.
  predicate InPlugSection(kinds: seq<Kind>, i: nat)
    requires i < |kinds|
  {
    exists j | 0 <= j <= i :: kinds[j] == Mine && forall k | j < k <= i :: kinds[k] != Other
  }

  lemma SectionGoesOn(kinds: seq<Kind>, i: nat)
    requires 0 < i < |kinds| && kinds[i] != Mine
    ensures InPlugSection(kinds, i) <==> InPlugSection(kinds, i - 1) && kinds[i] != Other
  {
    if InPlugSection(kinds, i) {
      var j :| 0 <= j <= i && kinds[j] == Mine && forall k | j < k <= i :: kinds[k] != Other;
      assert j <= i - 1;
    }
    if InPlugSection(kinds, i - 1) && kinds[i] != Other {
      var j :| 0 <= j <= i - 1 && kinds[j] == Mine && forall k | j < k <= i - 1 :: kinds[k] != Other;
      assert forall k | j < k <= i :: kinds[k] != Other;
    }
  }

  lemma {:induction false} SkippedExactly(kinds: seq<Kind>, i: nat)
    requires i < |kinds|
    ensures SkippingAfter(kinds[..i + 1]) <==> InPlugSection(kinds, i)
  {
    OutsideStep(kinds, kinds, i);
    if kinds[i] == Mine {
      assert InPlugSection(kinds, i);
    } else if i > 0 {
      SkippedExactly(kinds, i - 1);
      SectionGoesOn(kinds, i);
    }
  }

  function KeptPositions(kinds: seq<Kind>, n: nat): seq<nat>
    requires n <= |kinds|
  {
    if n == 0 then []
    else KeptPositions(kinds, n - 1) + (if InPlugSection(kinds, n - 1) then [] else [n - 1])
  }

  lemma {:induction false} PositionsClimb(kinds: seq<Kind>, n: nat)
    requires n <= |kinds|
    ensures Climbs(KeptPositions(kinds, n), n)
  {
    if n > 0 {
      PositionsClimb(kinds, n - 1);
      ClimbsOn(KeptPositions(kinds, n - 1), n - 1);
    }
  }

  lemma {:induction false} PositionsExactly(kinds: seq<Kind>, n: nat, i: nat)
    requires n <= |kinds| && i < |kinds|
    ensures i in KeptPositions(kinds, n) <==> i < n && !InPlugSection(kinds, i)
  {
    if n > 0 {
      PositionsExactly(kinds, n - 1, i);
      var before := KeptPositions(kinds, n - 1);
      if InPlugSection(kinds, n - 1) {
        assert KeptPositions(kinds, n) == before;
      } else {
        assert KeptPositions(kinds, n) == before + [n - 1];
      }
    }
  }

  lemma {:induction false} OutsideIsAtPositions<T>(items: seq<T>, kinds: seq<Kind>, n: nat)
    requires |items| == |kinds| && n <= |items| && Climbs(KeptPositions(kinds, n), |items|)
    ensures Outside(items[..n], kinds[..n]) == ItemsAt(items, KeptPositions(kinds, n))
  {
    if n > 0 {
      PositionsClimb(kinds, n - 1);
      OutsideIsAtPositions(items, kinds, n - 1);
      OutsideStep(items, kinds, n - 1);
      SkippedExactly(kinds, n - 1);
      if !InPlugSection(kinds, n - 1) {
        OneMoreItem(items, KeptPositions(kinds, n - 1), n - 1);
      }
    }
  }

  // The lines kept are those outside plug sections, in their order.
  lemma KeepsExactlyTheRest(lines: seq<string>)
    ensures var kinds, at := Kinds(lines), KeptPositions(Kinds(lines), |lines|);
            && Climbs(at, |lines|)
            && (forall i :: 0 <= i < |lines| ==> (i in at <==> !InPlugSection(kinds, i)))
            && Kept(lines) == ItemsAt(lines, at)
  {
    var kinds, n := Kinds(lines), |lines|;
    PositionsClimb(kinds, n);
    forall i: nat | i < n ensures i in KeptPositions(kinds, n) <==> !InPlugSection(kinds, i) {
      PositionsExactly(kinds, n, i);
    }
    OutsideIsAtPositions(lines, kinds, n);
    assert lines[..n] == lines && kinds[..n] == kinds;
  }

  ghost predicate PlainLines(lines: seq<string>) {
    forall i :: 0 <= i < |lines| ==> OneLine(lines[i])
  }

  ghost predicate NoPlugHeader(lines: seq<string>) {
    forall i :: 0 <= i < |lines| ==> !PlugHeader(lines[i])
  }

  lemma KeptLine(lines: seq<string>, k: nat) returns (i: nat)
    requires k < |Kept(lines)|
    ensures i < |lines| && Kept(lines)[k] == lines[i] && KindOf(lines[i]) != Mine
  {
    KeepsExactlyTheRest(lines);
    i := KeptPositions(Kinds(lines), |lines|)[k];
    assert i in KeptPositions(Kinds(lines), |lines|);
    assert Kinds(lines)[i] == KindOf(lines[i]);
  }

  lemma NoHeaderIsKept(lines: seq<string>)
    ensures NoPlugHeader(Kept(lines))
  {
    forall k | 0 <= k < |Kept(lines)| ensures !PlugHeader(Kept(lines)[k]) {
      var i := KeptLine(lines, k);
    }
  }

  lemma {:induction false} NothingSkipped<T>(items: seq<T>, kinds: seq<Kind>)
    requires |items| == |kinds| && Mine !in kinds
    ensures !SkippingAfter(kinds) && Outside(items, kinds) == items
  {
    if items != [] {
      assert kinds[|items| - 1] in kinds;
      NothingSkipped(items[..|items| - 1], kinds[..|items| - 1]);
    }
  }

  // Lines are left alone exactly when there is no plug header among them.
  lemma LeftAloneExactly(lines: seq<string>)
    ensures Kept(lines) == lines <==> NoPlugHeader(lines)
  {
    if NoPlugHeader(lines) {
      NothingSkipped(lines, Kinds(lines));
    }
    NoHeaderIsKept(lines);
  }

  // On lines, doing it again changes nothing.
  lemma KeptIsIdempotent(lines: seq<string>)
    ensures Kept(Kept(lines)) == Kept(lines)
  {
    NoHeaderIsKept(lines);
    LeftAloneExactly(Kept(lines));
  }

  predicate AllSpace(s: string) {
    forall i :: 0 <= i < |s| ==> IsSpace(s[i])
  }

  lemma {:induction false} TrimStartDrops(space: string, s: string)
    requires AllSpace(space)
    ensures TrimStart(space + s) == TrimStart(s)
  {
    if space == [] {
      assert space + s == s;
    } else {
      assert (space + s)[0] == space[0] && (space + s)[1..] == space[1..] + s;
      TrimStartDrops(space[1..], s);
    }
  }

  lemma {:induction false} TrimEndDrops(s: string, space: string)
    requires AllSpace(space)
    ensures TrimEnd(s + space) == TrimEnd(s)
  {
    if space == [] {
      assert s + space == s;
    } else {
      var n := |space| - 1;
      assert (s + space)[..|s + space| - 1] == s + space[..n] && (s + space)[|s + space| - 1] == space[n];
      TrimEndDrops(s, space[..n]);
    }
  }

  // Space on both sides goes, and nothing else.
  lemma TrimExactly(before: string, s: string, after: string)
    requires AllSpace(before) && AllSpace(after) && s != [] && !IsSpace(s[0]) && !IsSpace(s[|s| - 1])
    ensures Trim(before + s + after) == s
  {
    TrimEndDrops(before + s, after);
    assert (before + s)[|before + s| - 1] == s[|s| - 1];
    TrimStartDrops(before, s);
  }

  // No line is kept that is one of the three headers of plug's own section, however
  // it is indented.
  lemma NoIndentedHeaderIsKept(lines: seq<string>, before: string, header: string, after: string)
    requires AllSpace(before) && AllSpace(after)
    requires header in {"[mcp_servers.plug]", "[[mcp_servers.plug]]", "[mcp_servers.\"plug\"]"}
    ensures before + header + after !in Kept(lines)
  {
    TrimExactly(before, header, after);
    NoHeaderIsKept(lines);
  }

  lemma TrimLeaves(s: string)
    requires s != [] && !IsSpace(s[0]) && !IsSpace(s[|s| - 1])
    ensures Trim(s) == s
  {
  }

  lemma PlugPrefixDoesNotEnd(rest: string)
    ensures !EndsSkipping("[mcp_servers.plug" + rest + "]")
  {
    var header := "[mcp_servers.plug" + rest + "]";
    TrimLeaves(header);
    assert header[12..] == ".plug" + (rest + "]");
    assert ".plug" <= header[12..];
  }

  lemma PlugHeaderStarts()
    ensures PlugHeader("[mcp_servers.plug]")
  {
    TrimLeaves("[mcp_servers.plug]");
  }

  lemma SkipGoesOn<T>(items: seq<T>, kinds: seq<Kind>, item: T, kind: Kind)
    requires |items| == |kinds| && (kind == Mine || (SkippingAfter(kinds) && kind != Other))
    ensures SkippingAfter(kinds + [kind]) && Outside(items + [item], kinds + [kind]) == Outside(items, kinds)
  {
    assert (kinds + [kind])[..|kinds|] == kinds && (items + [item])[..|items|] == items;
  }

  lemma KindsInParts(lines: seq<string>, line: string)
    ensures Kinds(lines + [line]) == Kinds(lines) + [KindOf(line)]
  {
  }

  // The section of another server goes with the one before it when its name
  // begins with "plug", as "[mcp_servers.plugin]" does.
  lemma LongerNameGoesToo(before: seq<string>, setting: string, rest: string, other: string)
    requires !EndsSkipping(setting) && !EndsSkipping(other)
    ensures var longer := "[mcp_servers.plug" + rest + "]";
            Kept(before + ["[mcp_servers.plug]"] + [setting] + [longer] + [other]) == Kept(before)
  {
    var header, longer := "[mcp_servers.plug]", "[mcp_servers.plug" + rest + "]";
    var a := before + [header];
    var b, c := a + [setting], a + [setting] + [longer];
    PlugHeaderStarts();
    PlugPrefixDoesNotEnd(rest);
    KindsInParts(before, header);
    KindsInParts(a, setting);
    KindsInParts(b, longer);
    KindsInParts(c, other);
    SkipGoesOn(before, Kinds(before), header, KindOf(header));
    SkipGoesOn(a, Kinds(a), setting, KindOf(setting));
    SkipGoesOn(b, Kinds(b), longer, KindOf(longer));
    SkipGoesOn(c, Kinds(c), other, KindOf(other));
  }

  // -------------------------------------------------------------------------
  // What goes that is not plug's own
  // -------------------------------------------------------------------------

  predicate IsHeader(line: string) {
    var t := Trim(line);
    t != [] && t[0] == '['
  }

  predicate NamesPlug(line: string) {
    Contains(Trim(line), ".plug") || Contains(Trim(line), "\"plug\"")
  }

  // The header a line stands under: its own, or the last one before it.
  function HeaderOver(lines: seq<string>, i: nat): (at: Option<nat>)
    requires i < |lines|
    ensures at.Some? ==> at.value <= i && IsHeader(lines[at.value])
    ensures at.Some? ==> forall k | at.value < k <= i :: !IsHeader(lines[k])
    ensures at.None? ==> forall k | 0 <= k <= i :: !IsHeader(lines[k])
  {
    if IsHeader(lines[i]) then Some(i) else if i == 0 then None else HeaderOver(lines, i - 1)
  }

  // A line that stands under no header, or under one that is not plug's own.
  predicate Foreign(lines: seq<string>, own: string -> bool, i: nat)
    requires i < |lines|
  {
    HeaderOver(lines, i).None? || !own(lines[HeaderOver(lines, i).value])
  }

  // A header that is not plug's own is met while skipping, and its text has
  // ".plug" or "\"plug\"" in it.
  predicate MeetsForeignPlug(lines: seq<string>, own: string -> bool, i: nat)
    requires i < |lines|
  {
    IsHeader(lines[i]) && !own(lines[i]) && NamesPlug(lines[i]) && SkippingAfter(Kinds(lines)[..i])
  }

  lemma ForeignPlugIsDropped(lines: seq<string>, own: string -> bool, i: nat)
    requires i < |lines| && MeetsForeignPlug(lines, own, i)
    ensures Foreign(lines, own, i) && InPlugSection(Kinds(lines), i)
  {
    OutsideStep(lines, Kinds(lines), i);
    SkippedExactly(Kinds(lines), i);
  }

  lemma PlugHeaderIsHeader(line: string)
    requires PlugHeader(line)
    ensures IsHeader(line) && KindOf(line) == Mine
  {
  }

  lemma HeaderWhileSkipping(lines: seq<string>, j: nat, h: nat)
    requires j <= h < |lines| && Kinds(lines)[j] == Mine && forall k | j < k <= h :: Kinds(lines)[k] != Other
    requires IsHeader(lines[h]) && !PlugHeader(lines[h])
    ensures NamesPlug(lines[h]) && SkippingAfter(Kinds(lines)[..h])
  {
    var kinds := Kinds(lines);
    assert kinds[h] == KindOf(lines[h]);
    assert InPlugSection(kinds, h);
    SkippedExactly(kinds, h);
    OutsideStep(kinds, kinds, h);
  }

  lemma DroppedMeetsForeignPlug(lines: seq<string>, own: string -> bool, i: nat) returns (h: nat)
    requires forall line :: PlugHeader(line) ==> own(line)
    requires i < |lines| && Foreign(lines, own, i) && InPlugSection(Kinds(lines), i)
    ensures h < |lines| && MeetsForeignPlug(lines, own, h)
  {
    var kinds := Kinds(lines);
    var j :| 0 <= j <= i && kinds[j] == Mine && forall k | j < k <= i :: kinds[k] != Other;
    assert kinds[j] == KindOf(lines[j]);
    PlugHeaderIsHeader(lines[j]);
    h := HeaderOver(lines, i).value;
    HeaderWhileSkipping(lines, j, h);
  }

  // Whichever headers count as plug's own, its section headers among them: no line
  // of another section is dropped exactly when no other header with ".plug" or
  // "\"plug\"" in its text is met while skipping.
  lemma OnlyOwnLinesGoExactly(lines: seq<string>, own: string -> bool)
    requires forall line :: PlugHeader(line) ==> own(line)
    ensures (forall i :: 0 <= i < |lines| && Foreign(lines, own, i) ==> !InPlugSection(Kinds(lines), i))
            <==> (forall i :: 0 <= i < |lines| ==> !MeetsForeignPlug(lines, own, i))
  {
    forall i | 0 <= i < |lines| && MeetsForeignPlug(lines, own, i)
      ensures Foreign(lines, own, i) && InPlugSection(Kinds(lines), i)
    {
      ForeignPlugIsDropped(lines, own, i);
    }
    forall i | 0 <= i < |lines| && Foreign(lines, own, i) && InPlugSection(Kinds(lines), i)
      ensures exists h :: 0 <= h < |lines| && MeetsForeignPlug(lines, own, h)
    {
      var h := DroppedMeetsForeignPlug(lines, own, i);
    }
  }

  // -------------------------------------------------------------------------
  // The text a second time
  // -------------------------------------------------------------------------

  lemma {:induction false} PiecesAreOneLines(text: string)
    ensures forall i :: 0 <= i < |SplitLines(text)| ==> OneLine(SplitLines(text)[i])
  {
    if text != [] {
      PiecesAreOneLines(text[1..]);
    }
  }

  lemma LinesAreOneLines(text: string)
    ensures forall i :: 0 <= i < |Lines(text)| ==> OneLine(Lines(text)[i])
  {
    PiecesAreOneLines(text);
  }

  // Joined lines split into the same lines again.
  lemma {:induction false} JoinedSplitsBack(lines: seq<string>)
    requires lines != [] && PlainLines(lines)
    ensures SplitLines(Join(lines, "\n")) == lines
  {
    if |lines| == 1 {
      OneLineAlone(lines[0]);
      assert lines == [lines[0]];
    } else {
      SplitFirstLine(lines[0], Join(lines[1..], "\n"));
      JoinedSplitsBack(lines[1..]);
      assert [lines[0]] + lines[1..] == lines;
    }
  }

  lemma {:induction false} OneLineAlone(line: string)
    requires OneLine(line)
    ensures SplitLines(line) == [line]
  {
    if line != [] {
      assert line[0] in line;
      assert forall c | c in line[1..] :: c in line;
      OneLineAlone(line[1..]);
      assert [line[0]] + line[1..] == line;
    }
  }

  lemma TrimForgetsReturn(line: string)
    ensures Trim(StripReturn(line)) == Trim(line)
  {
  }

  lemma NoHeaderAmongStripped(lines: seq<string>)
    requires forall i :: 0 <= i < |lines| ==> !PlugHeader(lines[i])
    ensures forall i :: 0 <= i < |lines| ==> !PlugHeader(StripReturns(lines)[i])
  {
    forall i | 0 <= i < |lines| ensures !PlugHeader(StripReturns(lines)[i]) {
      TrimForgetsReturn(lines[i]);
    }
  }

  // What Lines makes of joined lines: a '\r' before a break goes, and so does an
  // empty last line.
  function Relined(lines: seq<string>): seq<string>
    requires lines != []
  {
    var n := |lines| - 1;
    StripReturns(lines[..n]) + (if lines[n] == [] then [] else [lines[n]])
  }

  // At most one line, or a last line that is not empty and no '\r' at the end of
  // a line before it.
  predicate Settled(out: seq<string>) {
    |out| <= 1 || (out[|out| - 1] != [] && StripReturns(out[..|out| - 1]) == out[..|out| - 1])
  }

  // The second time only the line ends matter: the text stays as it is exactly
  // when they are settled.
  lemma UnlinkedAgainExactly(content: string)
    ensures Unlinked(Unlinked(content)) == Unlinked(content) <==> Settled(Kept(Lines(content)))
  {
    var out := Kept(Lines(content));
    KeptIsPlain(content);
    if out == [] {
      assert Lines("") == [];
    } else {
      SecondTime(out);
      SettledExactly(out);
    }
  }

  lemma KeptIsPlain(content: string)
    ensures PlainLines(Kept(Lines(content))) && NoPlugHeader(Kept(Lines(content)))
  {
    var lines := Lines(content);
    LinesAreOneLines(content);
    NoHeaderIsKept(lines);
    forall k | 0 <= k < |Kept(lines)| ensures OneLine(Kept(lines)[k]) {
      var i := KeptLine(lines, k);
    }
  }

  lemma RelinedHasNoHeader(out: seq<string>)
    requires out != [] && NoPlugHeader(out)
    ensures NoPlugHeader(Relined(out))
  {
    NoHeaderAmongStripped(out[..|out| - 1]);
  }

  lemma SecondTime(out: seq<string>)
    requires out != [] && PlainLines(out) && NoPlugHeader(out)
    ensures Unlinked(Join(out, "\n")) == Join(Relined(out), "\n")
  {
    JoinedSplitsBack(out);
    assert Lines(Join(out, "\n")) == Relined(out);
    RelinedHasNoHeader(out);
    LeftAloneExactly(Relined(out));
  }

  lemma RelinedIsPlain(out: seq<string>)
    requires out != [] && PlainLines(out)
    ensures PlainLines(Relined(out))
  {
    forall i | 0 <= i < |Relined(out)| ensures OneLine(Relined(out)[i]) {
      assert OneLine(out[i]);
    }
  }

  lemma SameLinesExactly(out: seq<string>)
    requires |out| > 1
    ensures Relined(out) == out <==> Settled(out)
  {
    var n := |out| - 1;
    assert out == out[..n] + [out[n]];
    if Relined(out) == out {
      assert |Relined(out)| == |out|;
      assert Relined(out)[..n] == StripReturns(out[..n]);
    }
  }

  lemma SettledExactly(out: seq<string>)
    requires out != [] && PlainLines(out)
    ensures Join(Relined(out), "\n") == Join(out, "\n") <==> Settled(out)
  {
    if |out| == 1 {
      assert out == [out[0]];
    } else {
      SameLinesExactly(out);
      RelinedIsPlain(out);
      JoinedSplitsBack(out);
      JoinedSplitsBack(Relined(out));
    }
  }

  lemma TwoLines()
    ensures Lines("a\n\n") == ["a", ""] && Lines("a\n") == ["a"]
  {
    assert ["a", ""][1..] == [""] && [""][1..] == [] && ["a"][1..] == [];
    SplitUnlines(["a", ""]);
    assert Unlines([""]) == "\n";
    assert Unlines(["a", ""]) == "a\n\n";
    SplitUnlines(["a"]);
    assert Unlines(["a"]) == "a\n";
  }

  lemma PlainTextKept()
    ensures Kept(["a", ""]) == ["a", ""] && Kept(["a"]) == ["a"]
  {
    TrimLeaves("a");
    assert !PlugHeader("a") && !PlugHeader("");
    LeftAloneExactly(["a", ""]);
    LeftAloneExactly(["a"]);
  }

  // Two blank lines at the end become one, and then none.
  lemma BlankLinesKeepGoing()
    ensures Unlinked("a\n\n") == "a\n" && Unlinked("a\n") == "a"
  {
    TwoLines();
    PlainTextKept();
    assert ["a", ""][1..] == [""];
    assert Join([""], "\n") == "";
  }
}
