/**
 The import: one server per signature kept of all that were discovered, those the configuration
 already has left out, and what a signature tells apart.
 */
module ConfigImport {
  import opened Common
  import opened TomlText
  import opened TomlPrinter

  function OrEmpty(s: Option<string>): string {
    if s.Some? then s.value else ""
  }

  function Signature(c: Launch): string {
    match c.transport
    case Stdio => "stdio:" + OrEmpty(c.command) + " " + Join(c.args, " ")
    case Http => "http:" + OrEmpty(c.url)
    case Sse => "sse:" + OrEmpty(c.url)
    case OpenApi => "openapi:" + OrEmpty(c.spec)
  }

  // -------------------------------------------------------------------------
  // One server per signature
  // -------------------------------------------------------------------------

  function Signatures(servers: seq<Discovered>): set<string> {
    set s | s in servers :: Signature(s.config)
  }

  predicate SignaturesDiffer(servers: seq<Discovered>) {
    forall k, l :: 0 <= k < l < |servers| ==> Signature(servers[k].config) != Signature(servers[l].config)
  }

  function Keys(servers: seq<Discovered>): seq<string> {
    seq(|servers|, i requires 0 <= i < |servers| => Signature(servers[i].config))
  }

  // Nothing before position i is the same.
  predicate IsFirst(keys: seq<string>, i: nat)
    requires i < |keys|
  {
    forall j :: 0 <= j < i ==> keys[j] != keys[i]
  }

  function FirstsUpTo(keys: seq<string>, n: nat): seq<nat>
    requires n <= |keys|
  {
    if n == 0 then [] else FirstsUpTo(keys, n - 1) + (if IsFirst(keys, n - 1) then [n - 1] else [])
  }

  lemma {:induction false} FirstsClimb(keys: seq<string>, n: nat)
    requires n <= |keys|
    ensures Climbs(FirstsUpTo(keys, n), n)
  {
    if n > 0 {
      FirstsClimb(keys, n - 1);
      ClimbsOn(FirstsUpTo(keys, n - 1), n - 1);
    }
  }

  lemma {:induction false} AtFirstsExactly(keys: seq<string>, n: nat, i: nat)
    requires n <= |keys| && i < |keys|
    ensures i in FirstsUpTo(keys, n) <==> i < n && IsFirst(keys, i)
  {
    if n > 0 {
      AtFirstsExactly(keys, n - 1, i);
      var before := FirstsUpTo(keys, n - 1);
      if IsFirst(keys, n - 1) {
        assert FirstsUpTo(keys, n) == before + [n - 1];
      } else {
        assert FirstsUpTo(keys, n) == before;
      }
    }
  }

  function DedupedUpTo(servers: seq<Discovered>, n: nat): seq<Discovered>
    requires n <= |servers|
  {
    FirstsClimb(Keys(servers), n);
    ItemsAt(servers, FirstsUpTo(Keys(servers), n))
  }

  function Deduped(servers: seq<Discovered>): seq<Discovered> {
    DedupedUpTo(servers, |servers|)
  }

  // The servers kept are those that are the first of their signature, in the
  // order they came.
  lemma DedupKeepsTheFirsts(servers: seq<Discovered>)
    ensures var keys, at := Keys(servers), FirstsUpTo(Keys(servers), |servers|);
            && Climbs(at, |servers|)
            && (forall i :: 0 <= i < |servers| ==> (i in at <==> IsFirst(keys, i)))
            && Deduped(servers) == ItemsAt(servers, at)
  {
    var keys, n := Keys(servers), |servers|;
    FirstsClimb(keys, n);
    forall i: nat | i < n ensures i in FirstsUpTo(keys, n) <==> IsFirst(keys, i) {
      AtFirstsExactly(keys, n, i);
    }
  }

  lemma {:induction false} EveryKeyHasAFirst(keys: seq<string>, i: nat) returns (j: nat)
    requires i < |keys|
    ensures j <= i && IsFirst(keys, j) && keys[j] == keys[i]
  {
    if IsFirst(keys, i) {
      j := i;
    } else {
      var k: nat :| k < i && keys[k] == keys[i];
      j := EveryKeyHasAFirst(keys, k);
    }
  }

  // No signature is lost, and none is kept twice.
  lemma DedupKeepsEachSignatureOnce(servers: seq<Discovered>)
    ensures Signatures(Deduped(servers)) == Signatures(servers) && SignaturesDiffer(Deduped(servers))
  {
    var keys, at, kept := Keys(servers), FirstsUpTo(Keys(servers), |servers|), Deduped(servers);
    DedupKeepsTheFirsts(servers);
    forall s | s in servers ensures Signature(s.config) in Signatures(kept) {
      KeptForEach(servers, s);
    }
    forall k, l | 0 <= k < l < |kept| ensures Signature(kept[k].config) != Signature(kept[l].config) {
      assert at[l] in at && IsFirst(keys, at[l]);
      assert keys[at[k]] != keys[at[l]];
    }
  }

  lemma KeptForEach(servers: seq<Discovered>, s: Discovered)
    requires s in servers
    ensures Signature(s.config) in Signatures(Deduped(servers))
  {
    var keys, at := Keys(servers), FirstsUpTo(Keys(servers), |servers|);
    DedupKeepsTheFirsts(servers);
    var i :| 0 <= i < |servers| && servers[i] == s;
    var j := EveryKeyHasAFirst(keys, i);
    var k :| 0 <= k < |at| && at[k] == j;
    assert Deduped(servers)[k] == servers[j] && Signature(servers[j].config) == keys[j] == keys[i];
  }

  lemma {:induction false} AllFirst(keys: seq<string>, n: nat)
    requires n <= |keys| && forall i :: 0 <= i < |keys| ==> IsFirst(keys, i)
    ensures FirstsUpTo(keys, n) == seq(n, i => i)
  {
    if n > 0 {
      AllFirst(keys, n - 1);
    }
  }

  lemma DedupIsIdempotent(servers: seq<Discovered>)
    ensures Deduped(Deduped(servers)) == Deduped(servers)
  {
    var kept := Deduped(servers);
    DedupKeepsEachSignatureOnce(servers);
    forall i | 0 <= i < |kept| ensures IsFirst(Keys(kept), i) {
    }
    AllFirst(Keys(kept), |kept|);
  }

  lemma KeptGrows(servers: seq<Discovered>, n: nat)
    requires n < |servers|
    ensures DedupedUpTo(servers, n + 1) ==
            DedupedUpTo(servers, n) + (if IsFirst(Keys(servers), n) then [servers[n]] else [])
  {
    FirstsClimb(Keys(servers), n);
    FirstsClimb(Keys(servers), n + 1);
  }

  method DedupServers(servers: seq<Discovered>) returns (kept: seq<Discovered>)
    ensures kept == Deduped(servers)
  {
    var seen: set<string> := {};
    kept := [];
    for n := 0 to |servers|
      invariant forall key :: key in seen <==> key in Keys(servers)[..n]
      invariant kept == DedupedUpTo(servers, n)
    {
      var signature := Signature(servers[n].config);
      SeenMeansNotFirst(Keys(servers), n);
      KeptGrows(servers, n);
      if signature !in seen {
        seen := seen + {signature};
        kept := kept + [servers[n]];
      }
    }
  }

  lemma SeenMeansNotFirst(keys: seq<string>, n: nat)
    requires n < |keys|
    ensures keys[n] in keys[..n] <==> !IsFirst(keys, n)
    ensures keys[..n + 1] == keys[..n] + [keys[n]]
  {
    forall j | 0 <= j < n && keys[j] == keys[n] ensures keys[n] in keys[..n] {
      assert keys[..n][j] == keys[n];
    }
  }

  // -------------------------------------------------------------------------
  // What is new
  // -------------------------------------------------------------------------

  function NotAmong(servers: seq<Discovered>, known: set<string>): (left: seq<Discovered>)
    ensures |left| <= |servers|
    ensures forall s :: s in left <==> s in servers && Signature(s.config) !in known
  {
    if servers == [] then []
    else NotAmong(servers[..|servers| - 1], known)
         + (if Signature(servers[|servers| - 1].config) in known then [] else [servers[|servers| - 1]])
  }

  // Where those not known stand in the list.
  function LeftAt(servers: seq<Discovered>, known: set<string>): seq<nat> {
    if servers == [] then []
    else LeftAt(servers[..|servers| - 1], known)
         + (if Signature(servers[|servers| - 1].config) in known then [] else [|servers| - 1])
  }

  lemma {:induction false} LeftExactly(servers: seq<Discovered>, known: set<string>)
    ensures Climbs(LeftAt(servers, known), |servers|)
    ensures forall i :: 0 <= i < |servers| ==>
              (i in LeftAt(servers, known) <==> Signature(servers[i].config) !in known)
  {
    if servers != [] {
      var n := |servers| - 1;
      var before := LeftAt(servers[..n], known);
      LeftExactly(servers[..n], known);
      ClimbsOn(before, n);
      assert n !in before;
      forall i | 0 <= i < n ensures i in LeftAt(servers, known) <==> i in before {}
    }
  }

  // What is left is every server that is not known, in the order they came.
  lemma {:induction false} LeftInOrder(servers: seq<Discovered>, known: set<string>)
    ensures Climbs(LeftAt(servers, known), |servers|)
    ensures forall i :: 0 <= i < |servers| ==>
              (i in LeftAt(servers, known) <==> Signature(servers[i].config) !in known)
    ensures NotAmong(servers, known) == ItemsAt(servers, LeftAt(servers, known))
  {
    LeftExactly(servers, known);
    if servers != [] {
      var n := |servers| - 1;
      LeftExactly(servers[..n], known);
      LeftInOrder(servers[..n], known);
      ItemsOfFront(servers, LeftAt(servers[..n], known), n);
      OneMoreItem(servers, LeftAt(servers[..n], known), n);
    }
  }

  lemma ItemsOfFront<T>(items: seq<T>, at: seq<nat>, n: nat)
    requires n <= |items| && forall k :: 0 <= k < |at| ==> at[k] < n
    ensures ItemsAt(items[..n], at) == ItemsAt(items, at)
  {
  }

  // Every server discovered is new, skipped or merged into another, and the
  // subtractions the counts are made by never go below zero.
  method Import(known: set<string>, scanned: seq<seq<Discovered>>)
    returns (added: seq<Discovered>, skipped: nat, merged: nat)
    ensures added == NotAmong(Deduped(Flatten(scanned)), known)
    ensures |added| + skipped + merged == |Flatten(scanned)|
    ensures merged == |Flatten(scanned)| - |Deduped(Flatten(scanned))|
  {
    var discovered := Flatten(scanned);
    var before := |discovered|;
    DedupIsNoLonger(Keys(discovered), before);
    discovered := DedupServers(discovered);
    merged := before - |discovered|;
    added := NotAmong(discovered, known);
    skipped := before - merged - |added|;
  }

  lemma {:induction false} DedupIsNoLonger(keys: seq<string>, n: nat)
    requires n <= |keys|
    ensures |FirstsUpTo(keys, n)| <= n
  {
    if n > 0 {
      DedupIsNoLonger(keys, n - 1);
    }
  }

  // Between what is known and what is new every discovered signature is
  // covered, and no two new servers share one.
  lemma NewServersCompleteTheKnown(discovered: seq<Discovered>, known: set<string>)
    ensures var added := NotAmong(Deduped(discovered), known);
            && Signatures(added) == Signatures(discovered) - known
            && SignaturesDiffer(added)
  {
    DedupKeepsEachSignatureOnce(discovered);
    FilterKeepsApart(Deduped(discovered), known);
    var added := NotAmong(Deduped(discovered), known);
    forall signature | signature in Signatures(discovered) - known ensures signature in Signatures(added) {
      assert signature in Signatures(Deduped(discovered));
    }
    forall signature | signature in Signatures(added) ensures signature in Signatures(discovered) - known {
      assert signature in Signatures(Deduped(discovered));
    }
  }

  lemma {:induction false} FilterKeepsApart(servers: seq<Discovered>, known: set<string>)
    requires SignaturesDiffer(servers)
    ensures var left := NotAmong(servers, known);
            SignaturesDiffer(left)
  {
    if servers != [] {
      var before := servers[..|servers| - 1];
      FilterKeepsApart(before, known);
      var left := NotAmong(before, known);
      forall k | 0 <= k < |left| ensures Signature(left[k].config) != Signature(servers[|servers| - 1].config) {
        assert left[k] in left;
        var j :| 0 <= j < |before| && before[j] == left[k];
        assert servers[j] == left[k];
      }
    }
  }

  // -------------------------------------------------------------------------
  // What a signature tells apart
  // -------------------------------------------------------------------------

  predicate Word(s: string) {
    s != [] && ' ' !in s
  }

  // The text between the spaces.
  function Pieces(s: string): (pieces: seq<string>)
    ensures pieces != []
  {
    if s == [] then [""]
    else
      var rest := Pieces(s[1..]);
      if s[0] == ' ' then [""] + rest else [[s[0]] + rest[0]] + rest[1..]
  }

  function ArgPieces(args: seq<string>): seq<string> {
    if args == [] then [""] else if |args| == 1 then Pieces(args[0]) else Pieces(args[0]) + ArgPieces(args[1..])
  }

  lemma {:induction false} PiecesOfTwo(a: string, b: string)
    ensures Pieces(a + " " + b) == Pieces(a) + Pieces(b)
  {
    var text := a + " " + b;
    if a == [] {
      assert text[0] == ' ' && text[1..] == b;
    } else {
      assert text[0] == a[0] && text[1..] == a[1..] + " " + b;
      PiecesOfTwo(a[1..], b);
    }
  }

  lemma {:induction false} PiecesOfArgs(args: seq<string>)
    ensures Pieces(Join(args, " ")) == ArgPieces(args)
  {
    if |args| > 1 {
      PiecesOfTwo(args[0], Join(args[1..], " "));
      PiecesOfArgs(args[1..]);
    }
  }

  lemma JoinWithEmptyFirst(pieces: seq<string>)
    requires pieces != []
    ensures Join([""] + pieces, " ") == [' '] + Join(pieces, " ")
  {
    assert ([""] + pieces)[1..] == pieces;
  }

  lemma JoinWithLongerFirst(c: char, pieces: seq<string>)
    requires pieces != []
    ensures Join([[c] + pieces[0]] + pieces[1..], " ") == [c] + Join(pieces, " ")
  {
    var longer := [[c] + pieces[0]] + pieces[1..];
    assert longer[1..] == pieces[1..];
  }

  lemma {:induction false} PiecesJoinBack(s: string)
    ensures Join(Pieces(s), " ") == s
  {
    if s != [] {
      PiecesJoinBack(s[1..]);
      JoinWithEmptyFirst(Pieces(s[1..]));
      JoinWithLongerFirst(s[0], Pieces(s[1..]));
    }
  }

  lemma SignatureText(c: Launch)
    requires c.transport.Stdio?
    ensures Signature(c) == "stdio:" + (OrEmpty(c.command) + " " + Join(c.args, " "))
    ensures Pieces(OrEmpty(c.command) + " " + Join(c.args, " ")) == Pieces(OrEmpty(c.command)) + ArgPieces(c.args)
  {
    PiecesOfTwo(OrEmpty(c.command), Join(c.args, " "));
    PiecesOfArgs(c.args);
  }

  lemma SignatureStarts(c: Launch)
    ensures |Signature(c)| > 1
    ensures Signature(c)[..2] ==
            match c.transport case Stdio => "st" case Http => "ht" case Sse => "ss" case OpenApi => "op"
  {
    match c.transport
    case Stdio => SignatureText(c);
    case Http => assert Signature(c)[..2] == "http:"[..2] == "ht";
    case Sse => assert Signature(c)[..2] == "sse:"[..2] == "ss";
    case OpenApi => assert Signature(c)[..2] == "openapi:"[..2] == "op";
  }

  lemma SignatureEnds(prefix: string, a: string, b: string)
    ensures prefix + a == prefix + b <==> a == b
  {
    assert (prefix + a)[|prefix|..] == a && (prefix + b)[|prefix|..] == b;
  }

  // Any two servers have the same signature exactly when they have the same
  // transport and, for a remote one, the same address, for an API, the same
  // specification, for a local one, the same words: command and arguments, all cut
  // at every space, come to the same list, no argument at all counting as one that
  // is empty.
  lemma SameSignatureExactly(c: Launch, d: Launch)
    ensures Signature(c) == Signature(d)
            <==> && c.transport == d.transport
                 && match c.transport
                    case Stdio =>
                      Pieces(OrEmpty(c.command)) + ArgPieces(c.args) == Pieces(OrEmpty(d.command)) + ArgPieces(d.args)
                    case Http => OrEmpty(c.url) == OrEmpty(d.url)
                    case Sse => OrEmpty(c.url) == OrEmpty(d.url)
                    case OpenApi => OrEmpty(c.spec) == OrEmpty(d.spec)
  {
    SignatureStarts(c);
    SignatureStarts(d);
    if c.transport == d.transport {
      match c.transport
      case Stdio => SameCommandExactly(c, d);
      case Http => SignatureEnds("http:", OrEmpty(c.url), OrEmpty(d.url));
      case Sse => SignatureEnds("sse:", OrEmpty(c.url), OrEmpty(d.url));
      case OpenApi => SignatureEnds("openapi:", OrEmpty(c.spec), OrEmpty(d.spec));
    }
  }

  lemma SameCommandExactly(c: Launch, d: Launch)
    requires c.transport.Stdio? && d.transport.Stdio?
    ensures Signature(c) == Signature(d)
            <==> Pieces(OrEmpty(c.command)) + ArgPieces(c.args) == Pieces(OrEmpty(d.command)) + ArgPieces(d.args)
  {
    var a, b := OrEmpty(c.command) + " " + Join(c.args, " "), OrEmpty(d.command) + " " + Join(d.args, " ");
    SignatureText(c);
    SignatureText(d);
    PiecesJoinBack(a);
    PiecesJoinBack(b);
    assert ("stdio:" + a)[6..] == a && ("stdio:" + b)[6..] == b;
  }

  lemma {:induction false} WordIsOnePiece(s: string)
    requires ' ' !in s
    ensures Pieces(s) == [s]
  {
    if s != [] {
      assert s[0] in s && forall c | c in s[1..] :: c in s;
      WordIsOnePiece(s[1..]);
      assert [s[0]] + s[1..] == s;
    }
  }

  lemma {:induction false} WordsAreTheirPieces(args: seq<string>)
    requires forall i :: 0 <= i < |args| ==> Word(args[i])
    ensures ArgPieces(args) == if args == [] then [""] else args
  {
    if args != [] {
      assert Word(args[0]);
      WordIsOnePiece(args[0]);
      if |args| > 1 {
        WordsAreTheirPieces(args[1..]);
        assert args == [args[0]] + args[1..];
      } else {
        assert args == [args[0]];
      }
    }
  }

  // For commands made of words the signature says everything: equal signatures
  // mean the same command and the same arguments.
  lemma WordsTellCommandsApart(c: Launch, d: Launch)
    requires c.transport.Stdio? && d.transport.Stdio?
    requires ' ' !in OrEmpty(c.command) && (forall i :: 0 <= i < |c.args| ==> Word(c.args[i]))
    requires ' ' !in OrEmpty(d.command) && (forall i :: 0 <= i < |d.args| ==> Word(d.args[i]))
    ensures Signature(c) == Signature(d) <==> OrEmpty(c.command) == OrEmpty(d.command) && c.args == d.args
  {
    SameCommandExactly(c, d);
    WordIsOnePiece(OrEmpty(c.command));
    WordIsOnePiece(OrEmpty(d.command));
    WordsAreTheirPieces(c.args);
    WordsAreTheirPieces(d.args);
    HeadAndTail(OrEmpty(c.command), ArgPieces(c.args), OrEmpty(d.command), ArgPieces(d.args));
    assert |c.args| > 0 ==> Word(c.args[0]);
    assert |d.args| > 0 ==> Word(d.args[0]);
  }

  lemma HeadAndTail(a: string, rest: seq<string>, b: string, other: seq<string>)
    ensures [a] + rest == [b] + other <==> a == b && rest == other
  {
    assert ([a] + rest)[0] == a && ([a] + rest)[1..] == rest;
    assert ([b] + other)[0] == b && ([b] + other)[1..] == other;
  }

  // An argument with a space in it has the pieces of two, and an empty one those
  // of none: one of these servers is merged into the other, though they are not
  // the same command.
  lemma SpacesHideArguments(c: Launch, before: string, after: string)
    requires c.transport.Stdio?
    ensures Signature(c.(args := [before + " " + after])) == Signature(c.(args := [before, after]))
    ensures Signature(c.(args := [])) == Signature(c.(args := [""]))
  {
    PiecesOfTwo(before, after);
    assert [before, after][1..] == [after];
    assert ArgPieces([before, after]) == ArgPieces([before + " " + after]);
    SameCommandExactly(c.(args := [before + " " + after]), c.(args := [before, after]));
    SameCommandExactly(c.(args := []), c.(args := [""]));
  }
}
