/** How an upstream may read a path: on every path the guards let by, dot removal,
    slash merging, backslash folding, parameter stripping and percent-decoding all
    read it as it stands, so the upstream's path is the one the gate was chosen for. */
module PathReadings {
  import opened Basics
  import opened Names
  import opened PathGates

  /** Up to, not including, the first slash from position i on. */
  function SlashFrom(p: string, i: nat): (j: nat)
    requires i <= |p|
    ensures i <= j <= |p| && (j < |p| ==> p[j] == '/')
    ensures forall k :: i <= k < j ==> p[k] != '/'
    decreases |p| - i
  {
    if i == |p| || p[i] == '/' then i else SlashFrom(p, i + 1)
  }

  /** Without the last segment and the slash before it. */
  function DropLast(p: string): (r: string)
    ensures |r| <= |p|
  {
    if |p| == 0 then "" else if p[|p| - 1] == '/' then p[..|p| - 1] else DropLast(p[..|p| - 1])
  }

  /** The output of removing dot segments (section 5.2.4 of RFC 3986). */
  function RemoveDots(input: string, output: string): string
    decreases |input|
  {
    if input == "" then output
    else if "../" <= input then RemoveDots(input[3..], output)
    else if "./" <= input then RemoveDots(input[2..], output)
    else if "/./" <= input then RemoveDots(input[2..], output)
    else if input == "/." then RemoveDots("/", output)
    else if "/../" <= input then RemoveDots(input[3..], DropLast(output))
    else if input == "/.." then RemoveDots("/", DropLast(output))
    else if input == "." || input == ".." then output
    else
      var j := SlashFrom(input, 1);
      RemoveDots(input[j..], output + input[..j])
  }

  function MergeSlashes(p: string): string {
    if |p| < 2 then p
    else if p[0] == '/' && p[1] == '/' then MergeSlashes(p[1..])
    else [p[0]] + MergeSlashes(p[1..])
  }

  function FoldBackslashes(p: string): string {
    if |p| == 0 then p else [if p[0] == '\\' then '/' else p[0]] + FoldBackslashes(p[1..])
  }

  /** Each segment ends at its first semicolon. */
  function StripParameters(p: string): string
    decreases |p|
  {
    if |p| == 0 then p
    else if p[0] == ';' then StripParameters(p[SlashFrom(p, 0)..])
    else [p[0]] + StripParameters(p[1..])
  }

  function HexValue(c: char): Option<nat> {
    if '0' <= c <= '9' then Some(c as nat - '0' as nat)
    else if 'a' <= c <= 'f' then Some(c as nat - 'a' as nat + 10)
    else if 'A' <= c <= 'F' then Some(c as nat - 'A' as nat + 10)
    else None
  }

  predicate Escape(p: string) {
    |p| >= 3 && p[0] == '%' && HexValue(p[1]).Some? && HexValue(p[2]).Some?
  }

  function DecodePercent(p: string): string {
    if |p| == 0 then p
    else if Escape(p) then [(16 * HexValue(p[1]).value + HexValue(p[2]).value) as char] + DecodePercent(p[3..])
    else [p[0]] + DecodePercent(p[1..])
  }

  datatype Reading = Dots | Merge | Fold | Strip | Decode

  function ReadBy(r: Reading, p: string): string {
    match r
    case Dots => RemoveDots(p, "")
    case Merge => MergeSlashes(p)
    case Fold => FoldBackslashes(p)
    case Strip => StripParameters(p)
    case Decode => DecodePercent(p)
  }

  /** An upstream may do any of these, in any order and any number of times. */
  function ReadAs(readings: seq<Reading>, p: string): string {
    if |readings| == 0 then p else ReadBy(readings[|readings| - 1], ReadAs(readings[..|readings| - 1], p))
  }

  // ---- dot segments ----

  /** A segment that starts here is "." or "..". */
  predicate DotHead(p: string) { p == "." || "./" <= p || p == ".." || "../" <= p }

  /** Some segment is, where p itself starts one if `start`. */
  predicate Dotted(p: string, start: bool) {
    |p| > 0 && ((start && DotHead(p)) || Dotted(p[1..], p[0] == '/'))
  }

  predicate IsDots(segment: string) { segment == "." || segment == ".." }

  lemma FirstSegmentEmpty(p: string)
    ensures Split(p, '/')[0] == "" <==> p == "" || p[0] == '/'
  {
  }

  lemma FirstSegmentDot(p: string)
    ensures Split(p, '/')[0] == "." <==> p == "." || "./" <= p
  {
    if |p| > 0 {
      FirstSegmentEmpty(p[1..]);
      if p[0] == '.' && |p| > 1 && p[1] == '/' { assert "./" <= p; }
      if p[0] == '.' && |p| == 1 { assert p == "."; }
    }
  }

  lemma FirstSegmentTwoDots(p: string)
    ensures Split(p, '/')[0] == ".." <==> p == ".." || "../" <= p
  {
    if |p| > 0 && p[0] == '.' {
      FirstSegmentDot(p[1..]);
      var head := Split(p[1..], '/')[0];
      assert Split(p, '/')[0] == "." + head;
      assert "." + head == ".." <==> head == "." by { assert ("." + head)[1..] == head && ".."[1..] == "."; }
      assert p == "." + p[1..];
      assert p == ".." <==> p[1..] == "." by { assert ".."[1..] == "."; }
      assert "../" <= p <==> "./" <= p[1..] by {
        if "../" <= p { assert p[1] == '.' && p[2] == '/'; }
        if "./" <= p[1..] { assert p[1..][0] == '.' && p[1..][1] == '/'; }
      }
    } else if |p| > 0 && p[0] != '/' {
      assert Split(p, '/')[0][0] == p[0];
    }
  }

  lemma FirstSegmentDots(p: string)
    ensures IsDots(Split(p, '/')[0]) <==> DotHead(p)
  {
    FirstSegmentDot(p);
    FirstSegmentTwoDots(p);
  }

  ghost predicate SomeDots(segments: seq<string>, from: nat) {
    exists i :: from <= i < |segments| && IsDots(segments[i])
  }

  lemma SomeDotsShift(a: seq<string>, b: seq<string>, n: nat, m: nat)
    requires n <= |a| && m <= |b| && a[n..] == b[m..]
    ensures SomeDots(a, n) <==> SomeDots(b, m)
  {
    if SomeDots(a, n) {
      var i :| n <= i < |a| && IsDots(a[i]);
      assert a[n..][i - n] == b[m..][i - n];
      assert b[i - n + m] == a[i];
    }
    if SomeDots(b, m) {
      var i :| m <= i < |b| && IsDots(b[i]);
      assert b[m..][i - m] == a[n..][i - m];
      assert a[i - m + n] == b[i];
    }
  }

  lemma {:induction false} DottedIsSegments(p: string, start: bool)
    ensures Dotted(p, start) <==> SomeDots(Split(p, '/'), if start then 0 else 1)
    decreases |p|
  {
    if |p| > 0 {
      DottedIsSegments(p[1..], p[0] == '/');
      var all, rest := Split(p, '/'), Split(p[1..], '/');
      if p[0] == '/' {
        assert all[0] == "" && all[1..] == rest[0..];
        SomeDotsShift(all, rest, 1, 0);
      } else {
        assert all[1..] == rest[1..];
        SomeDotsShift(all, rest, 1, 1);
      }
      FirstSegmentDots(p);
      assert SomeDots(all, 0) <==> IsDots(all[0]) || SomeDots(all, 1);
    }
  }

  lemma {:induction false} DottedHasDot(p: string, start: bool)
    requires Dotted(p, start)
    ensures '.' in p
  {
    if start && DotHead(p) {
      assert p[0] == '.';
    } else {
      DottedHasDot(p[1..], p[0] == '/');
      assert '.' in p[1..];
    }
  }

  lemma DotSegmentIsDotted(p: string)
    ensures HasDotSegment(p) <==> Dotted(p, true)
  {
    DottedIsSegments(p, true);
    if Dotted(p, true) { DottedHasDot(p, true); }
  }

  /** Characters of a segment past its start do not matter. */
  lemma {:induction false} DottedAfterSegment(p: string, i: nat, j: nat)
    requires i <= j <= |p| && forall k :: i <= k < j ==> p[k] != '/'
    requires j < |p| ==> p[j] == '/'
    ensures Dotted(p[i..], false) <==> Dotted(p[j..], true)
    decreases j - i
  {
    if i < j {
      assert p[i..][1..] == p[i + 1..];
      DottedAfterSegment(p, i + 1, j);
    }
  }

  /** A path that begins with no dot segment has one just when what follows its first
      segment has. */
  lemma MoveStep(input: string)
    requires input != "" && !DotHead(input) && !(input[0] == '/' && DotHead(input[1..]))
    ensures Dotted(input, true) <==> Dotted(input[SlashFrom(input, 1)..], true)
  {
    var j := SlashFrom(input, 1);
    if input[0] == '/' && |input| > 1 && input[1] != '/' {
      assert input[1..][1..] == input[2..];
      DottedAfterSegment(input, 2, j);
    } else if input[0] != '/' {
      DottedAfterSegment(input, 1, j);
    }
  }

  lemma DotCases(input: string)
    ensures DotHead(input) <==> "../" <= input || "./" <= input || input == "." || input == ".."
    ensures input != "" && input[0] == '/' && DotHead(input[1..]) <==>
      "/./" <= input || input == "/." || "/../" <= input || input == "/.."
  {
    if input != "" && input[0] == '/' {
      assert input == "/" + input[1..];
    }
  }

  lemma NoHeads(input: string)
    requires input != "" && !Dotted(input, true)
    ensures !DotHead(input) && !(input[0] == '/' && DotHead(input[1..]))
  {
    if input[0] == '/' && |input| > 1 { assert !Dotted(input[1..], true); }
  }

  lemma PlainStep(input: string, output: string)
    requires input != "" && !DotHead(input) && !(input[0] == '/' && DotHead(input[1..]))
    ensures RemoveDots(input, output) == RemoveDots(input[SlashFrom(input, 1)..], output + input[..SlashFrom(input, 1)])
  {
    DotCases(input);
  }

  lemma RemoveNothing(output: string)
    ensures RemoveDots("", output) == output == output + ""
  {
  }

  lemma {:induction false} PlainKeepsDots(input: string, output: string)
    requires !Dotted(input, true)
    ensures RemoveDots(input, output) == output + input
    decreases |input|
  {
    hide DotHead, RemoveDots, Dotted;
    if input == "" {
      RemoveNothing(output);
    } else {
      var j := SlashFrom(input, 1);
      NoHeads(input);
      MoveStep(input);
      PlainStep(input, output);
      PlainKeepsDots(input[j..], output + input[..j]);
      assert output + input[..j] + input[j..] == output + input;
    }
  }

  lemma {:induction false} RemovalShrinks(input: string, output: string)
    ensures |RemoveDots(input, output)| <= |input| + |output|
    ensures Dotted(input, true) ==> |RemoveDots(input, output)| < |input| + |output|
    decreases |input|
  {
    if input == "" {
    } else if "../" <= input { RemovalShrinks(input[3..], output);
    } else if "./" <= input { RemovalShrinks(input[2..], output);
    } else if "/./" <= input { RemovalShrinks(input[2..], output);
    } else if input == "/." { RemovalShrinks("/", output);
    } else if "/../" <= input { RemovalShrinks(input[3..], DropLast(output));
    } else if input == "/.." { RemovalShrinks("/", DropLast(output));
    } else if input == "." || input == ".." {
    } else {
      var j := SlashFrom(input, 1);
      DotCases(input);
      MoveStep(input);
      RemovalShrinks(input[j..], output + input[..j]);
    }
  }

  // ---- the other readings ----

  ghost predicate DoubleSlash(p: string) { exists i :: 0 <= i < |p| - 1 && p[i] == '/' && p[i + 1] == '/' }

  lemma {:induction false} Merging(p: string)
    ensures !DoubleSlash(p) ==> MergeSlashes(p) == p
    ensures |MergeSlashes(p)| <= |p| && (DoubleSlash(p) ==> |MergeSlashes(p)| < |p|)
  {
    if |p| >= 2 {
      Merging(p[1..]);
      if DoubleSlash(p[1..]) {
        var i :| 0 <= i < |p[1..]| - 1 && p[1..][i] == '/' && p[1..][i + 1] == '/';
        assert p[i + 1] == '/' && p[i + 2] == '/';
      }
      if DoubleSlash(p) && !(p[0] == '/' && p[1] == '/') {
        var i :| 0 <= i < |p| - 1 && p[i] == '/' && p[i + 1] == '/';
        assert p[1..][i - 1] == '/' && p[1..][i] == '/';
      }
    }
  }

  lemma {:induction false} Folding(p: string)
    ensures FoldBackslashes(p) == p <==> '\\' !in p
  {
    if |p| > 0 {
      Folding(p[1..]);
      assert p == [p[0]] + p[1..];
      assert FoldBackslashes(p)[1..] == FoldBackslashes(p[1..]);
    }
  }

  lemma {:induction false} Stripping(p: string)
    ensures |StripParameters(p)| <= |p|
    ensures if ';' in p then |StripParameters(p)| < |p| else StripParameters(p) == p
    decreases |p|
  {
    if |p| > 0 {
      Stripping(if p[0] == ';' then p[SlashFrom(p, 0)..] else p[1..]);
      assert p == [p[0]] + p[1..];
    }
  }

  /** A percent sign with two hex digits after it, anywhere. */
  ghost predicate Escaped(p: string) { exists i :: 0 <= i < |p| && Escape(p[i..]) }

  lemma {:induction false} Decoding(p: string)
    ensures |DecodePercent(p)| <= |p|
    ensures if Escaped(p) then |DecodePercent(p)| < |p| else DecodePercent(p) == p
    decreases |p|
  {
    if |p| > 0 {
      assert p[0..] == p;
      if Escape(p) {
        Decoding(p[3..]);
      } else {
        Decoding(p[1..]);
        assert p == [p[0]] + p[1..];
        if Escaped(p) {
          var i :| 0 <= i < |p| && Escape(p[i..]);
          assert p[1..][i - 1..] == p[i..];
        }
        if Escaped(p[1..]) {
          var i :| 0 <= i < |p[1..]| && Escape(p[1..][i..]);
          assert p[i + 1..] == p[1..][i..];
        }
      }
    }
  }

  /** On a path the guards let by, each reading is the identity. */
  lemma AdmittedIsPlain(p: string, r: Reading)
    requires !Refused(p)
    ensures ReadBy(r, p) == p
  {
    match r
    case Dots =>
      DotSegmentIsDotted(p);
      PlainKeepsDots(p, "");
    case Merge => Merging(p);
    case Fold => Folding(p);
    case Strip => Stripping(p);
    case Decode =>
      Decoding(p);
      forall i | 0 <= i < |p| ensures !Escape(p[i..]) { assert p[i..][0] == p[i]; }
  }

  /** Nothing is refused without need: a path is refused exactly when some reading
      changes it or it holds a percent sign, which need not begin an escape. */
  lemma RefusedIsAmbiguous(p: string)
    ensures Refused(p) <==> '%' in p || exists r :: ReadBy(r, p) != p
    ensures (forall i :: 0 <= i < |p| && p[i] == '%' ==> Escape(p[i..])) ==>
              (Refused(p) <==> exists r :: ReadBy(r, p) != p)
  {
    if !Refused(p) {
      forall r ensures ReadBy(r, p) == p { AdmittedIsPlain(p, r); }
    } else if HasDotSegment(p) {
      DotSegmentIsDotted(p);
      RemovalShrinks(p, "");
      assert ReadBy(Dots, p) != p;
    } else if DoubleSlash(p) {
      Merging(p);
      assert ReadBy(Merge, p) != p;
    } else if '\\' in p {
      Folding(p);
      assert ReadBy(Fold, p) != p;
    } else if ';' in p {
      Stripping(p);
      assert ReadBy(Strip, p) != p;
    } else if Escaped(p) {
      Decoding(p);
      assert ReadBy(Decode, p) != p;
    }
  }

  lemma {:induction false} AdmittedReadsAsItStands(p: string, readings: seq<Reading>)
    requires !Refused(p)
    ensures ReadAs(readings, p) == p
  {
    if |readings| > 0 {
      AdmittedReadsAsItStands(p, readings[..|readings| - 1]);
      AdmittedIsPlain(p, readings[|readings| - 1]);
    }
  }

  /** However the upstream reads the path, in any order and any number of times, a
      request that is not refused gets the gate the upstream's path would get. */
  lemma SameGateUpstream(rules: seq<Rule>, o: Offer, path: string, verb: string, readings: seq<Reading>)
    requires Serve(rules, o, path, verb) != BadRequest
    ensures Serve(rules, o, ReadAs(readings, path), verb) == Serve(rules, o, path, verb)
  {
    AdmittedReadsAsItStands(path, readings);
  }

  // ---- the path as it was sent ----

  lemma {:induction false} CharStays(raw: string, c: char)
    requires c in raw && c != '%' && HexValue(c).None?
    ensures c in DecodePercent(raw)
    decreases |raw|
  {
    if Escape(raw) {
      assert raw == [raw[0], raw[1], raw[2]] + raw[3..];
      CharStays(raw[3..], c);
    } else if raw[0] != c {
      assert raw == [raw[0]] + raw[1..];
      CharStays(raw[1..], c);
    }
  }

  lemma DoubleSlashBehind(c: char, rest: string)
    ensures DoubleSlash(rest) ==> DoubleSlash([c] + rest)
    ensures c == '/' && rest != "" && rest[0] == '/' ==> DoubleSlash([c] + rest)
  {
    var all := [c] + rest;
    if DoubleSlash(rest) {
      var i :| 0 <= i < |rest| - 1 && rest[i] == '/' && rest[i + 1] == '/';
      assert all[i + 1] == '/' && all[i + 2] == '/';
    } else if c == '/' && rest != "" && rest[0] == '/' {
      assert all[0] == '/' && all[1] == '/';
    }
  }

  lemma {:induction false} DoubleSlashStays(raw: string)
    requires DoubleSlash(raw)
    ensures DoubleSlash(DecodePercent(raw))
    decreases |raw|
  {
    var i :| 0 <= i < |raw| - 1 && raw[i] == '/' && raw[i + 1] == '/';
    if Escape(raw) {
      assert raw[3..][i - 3] == '/' && raw[3..][i - 2] == '/';
      DoubleSlashStays(raw[3..]);
      DoubleSlashBehind(DecodePercent(raw)[0], DecodePercent(raw[3..]));
    } else {
      if i > 0 {
        assert raw[1..][i - 1] == '/' && raw[1..][i] == '/';
        DoubleSlashStays(raw[1..]);
      }
      DoubleSlashBehind(raw[0], DecodePercent(raw[1..]));
    }
  }

  lemma DottedLater(p: string)
    ensures Dotted(p, false) ==> Dotted(p, true)
  {
  }

  lemma PlainFirst(raw: string)
    requires raw != "" && raw[0] != '%'
    ensures DecodePercent(raw) == [raw[0]] + DecodePercent(raw[1..])
  {
  }

  lemma DotHeadStays(raw: string)
    requires DotHead(raw)
    ensures DotHead(DecodePercent(raw))
  {
    PlainFirst(raw);
    if |raw| > 1 {
      PlainFirst(raw[1..]);
      if |raw| > 2 && raw[1] == '.' { PlainFirst(raw[2..]); }
    }
  }

  /** No digit of an escape is a dot or a slash. */
  lemma DottedBehindEscape(raw: string, start: bool)
    requires Escape(raw) && Dotted(raw, start)
    ensures Dotted(raw[3..], false)
  {
    assert raw[1..][1..] == raw[2..] && raw[2..][1..] == raw[3..];
    assert Dotted(raw[1..], false);
    assert Dotted(raw[2..], false);
  }

  lemma {:induction false} DottedStays(raw: string, start: bool)
    requires Dotted(raw, start)
    ensures Dotted(DecodePercent(raw), start)
    decreases |raw|
  {
    if Escape(raw) {
      DottedBehindEscape(raw, start);
      DottedStays(raw[3..], false);
      DottedLater(DecodePercent(raw[3..]));
      assert DecodePercent(raw)[1..] == DecodePercent(raw[3..]);
    } else if start && DotHead(raw) {
      DotHeadStays(raw);
    } else {
      DottedStays(raw[1..], raw[0] == '/');
      assert DecodePercent(raw)[1..] == DecodePercent(raw[1..]);
    }
  }

  /** Where the decoded path is let by, nothing but decoding changes the path as sent. */
  lemma OnlyDecodingReads(raw: string, r: Reading)
    requires !Refused(DecodePercent(raw)) && r != Decode
    ensures ReadBy(r, raw) == raw
  {
    var p := DecodePercent(raw);
    match r
    case Dots =>
      DotSegmentIsDotted(p);
      if Dotted(raw, true) { DottedStays(raw, true); }
      PlainKeepsDots(raw, "");
    case Merge =>
      if DoubleSlash(raw) { DoubleSlashStays(raw); }
      Merging(raw);
    case Fold =>
      if '\\' in raw { CharStays(raw, '\\'); }
      Folding(raw);
    case Strip =>
      if ';' in raw { CharStays(raw, ';'); }
      Stripping(raw);
  }

  /** A server that decodes at all, at whatever point, sees the path the gate was chosen
      for; one that does not sees the path as sent. */
  lemma {:induction false} ReadsDecodedOrRaw(raw: string, readings: seq<Reading>)
    requires !Refused(DecodePercent(raw))
    ensures ReadAs(readings, raw) == if Decode in readings then DecodePercent(raw) else raw
  {
    if |readings| > 0 {
      var front, r := readings[..|readings| - 1], readings[|readings| - 1];
      assert readings == front + [r];
      ReadsDecodedOrRaw(raw, front);
      if Decode in front {
        AdmittedIsPlain(DecodePercent(raw), r);
      } else if r != Decode {
        OnlyDecodingReads(raw, r);
      }
    }
  }

  /** So from the path as sent: `raw` is any spelling that decodes to the request's path. */
  lemma SameGateFromRaw(rules: seq<Rule>, o: Offer, raw: string, verb: string, readings: seq<Reading>)
    requires Serve(rules, o, DecodePercent(raw), verb) != BadRequest && Decode in readings
    ensures Serve(rules, o, ReadAs(readings, raw), verb) == Serve(rules, o, DecodePercent(raw), verb)
  {
    ReadsDecodedOrRaw(raw, readings);
  }

  // ---- what the readings do elsewhere ----

  lemma {:induction false} SegmentDropped(front: string, segment: string)
    requires '/' !in segment
    ensures DropLast(front + "/" + segment) == front
  {
    var p := front + "/" + segment;
    if segment == "" {
      assert p == front + "/" && p[..|p| - 1] == front;
    } else {
      assert p[|p| - 1] == segment[|segment| - 1] && segment[|segment| - 1] in segment;
      assert p[..|p| - 1] == front + "/" + segment[..|segment| - 1];
      SegmentDropped(front, segment[..|segment| - 1]);
    }
  }

  /** A slash after a segment changes nothing about its being dots. */
  lemma DotHeadBefore(front: string, rest: string)
    requires front != "" && rest != "" && rest[0] == '/'
    ensures DotHead(front + rest) <==> DotHead(front)
  {
    var p := front + rest;
    assert forall i :: 0 <= i < |front| ==> p[i] == front[i];
    assert p[|front|] == '/';
    DotHeadChars(p);
    DotHeadChars(front);
  }

  lemma DotHeadChars(p: string)
    ensures DotHead(p) <==>
      |p| >= 1 && p[0] == '.' && (|p| == 1 || p[1] == '/' || (p[1] == '.' && (|p| == 2 || p[2] == '/')))
  {
    if |p| >= 1 && p[0] == '.' {
      if |p| == 1 {
        assert p == ".";
      } else if p[1] == '/' {
        assert "./" <= p;
      } else if p[1] == '.' {
        if |p| == 2 { assert p == ".."; } else if p[2] == '/' { assert "../" <= p; }
      }
    }
  }

  lemma SameSlash(front: string, rest: string)
    requires front != "" && rest != "" && rest[0] == '/'
    ensures var j := SlashFrom(front, 1);
      && SlashFrom(front + rest, 1) == j
      && (front + rest)[..j] == front[..j] && (front + rest)[j..] == front[j..] + rest
  {
    var j, p := SlashFrom(front, 1), front + rest;
    assert forall i :: 0 <= i < |front| ==> p[i] == front[i];
    assert p[|front|] == '/';
    var k := SlashFrom(p, 1);
    assert k <= |front|;
  }

  /** Whole segments that are no dots go to the output as they are. */
  lemma {:induction false} DotsBehind(front: string, rest: string, output: string)
    requires !Dotted(front, true) && rest != "" && rest[0] == '/'
    ensures RemoveDots(front + rest, output) == RemoveDots(rest, output + front)
    decreases |front|
  {
    hide DotHead, RemoveDots, Dotted;
    if front == "" {
      assert front + rest == rest && output + front == output;
    } else {
      var j := SlashFrom(front, 1);
      NoHeads(front);
      MoveStep(front);
      DotHeadBefore(front, rest);
      if front[0] == '/' && |front| > 1 {
        assert (front + rest)[1..] == front[1..] + rest;
        DotHeadBefore(front[1..], rest);
      }
      if |front| == 1 && front[0] == '/' {
        assert (front + rest)[1..] == rest;
        DotHeadChars(rest);
      }
      SameSlash(front, rest);
      PlainStep(front + rest, output);
      DotsBehind(front[j..], rest, output + front[..j]);
      assert output + front[..j] + front[j..] == output + front;
    }
  }

  /** A segment of one dot goes away, one of two takes the segment before it along, and
      where there is none before it goes away alone. */
  lemma DotsRemoved(front: string, segment: string, rest: string)
    requires '/' !in segment && !Dotted(front, true) && !Dotted(front + "/" + segment, true)
    ensures RemoveDots(front + "/./" + rest, "") == RemoveDots(front + "/" + rest, "")
    ensures RemoveDots(front + "/" + segment + "/../" + rest, "") == RemoveDots(front + "/" + rest, "")
    ensures RemoveDots("/../" + rest, "") == RemoveDots("/" + rest, "")
    ensures RemoveDots(front + "/.", "") == front + "/"
    ensures RemoveDots(front + "/" + segment + "/..", "") == front + "/"
  {
    hide Dotted, DotHead;
    var up := front + "/" + segment;
    assert front + "/./" + rest == front + ("/./" + rest);
    assert front + "/" + rest == front + ("/" + rest);
    assert up + "/../" + rest == up + ("/../" + rest);
    assert "" + front == front && "" + up == up;
    DotsBehind(front, "/./" + rest, "");
    DotsBehind(front, "/" + rest, "");
    DotsBehind(up, "/../" + rest, "");
    DotsBehind(front, "/.", "");
    DotsBehind(up, "/..", "");
    SegmentDropped(front, segment);
    DotStep(rest, front);
    DotStep(rest, up);
    DotStep(rest, "");
    LastSlash(front);
  }

  lemma DotStep(rest: string, output: string)
    ensures RemoveDots("/./" + rest, output) == RemoveDots("/" + rest, output)
    ensures RemoveDots("/../" + rest, output) == RemoveDots("/" + rest, DropLast(output))
    ensures RemoveDots("/.", output) == RemoveDots("/", output)
    ensures RemoveDots("/..", output) == RemoveDots("/", DropLast(output))
  {
    assert ("/./" + rest)[2..] == "/" + rest && ("/../" + rest)[3..] == "/" + rest;
    assert ("/./" + rest)[0] == '/' && ("/../" + rest)[0] == '/' && ("/../" + rest)[2] == '.';
  }

  lemma LastSlash(output: string)
    ensures RemoveDots("/", output) == output + "/"
  {
    assert SlashFrom("/", 1) == 1;
    RemoveNothing(output + "/");
  }

  /** Of several slashes one is left; a path with no two together stays as it is. */
  lemma {:induction false} SlashesMerged(a: string, b: string)
    ensures MergeSlashes(a + "//" + b) == MergeSlashes(a + "/" + b)
  {
    if a == "" {
      assert ("" + "//" + b)[1..] == "" + "/" + b;
    } else {
      SlashesMerged(a[1..], b);
      assert (a + "//" + b)[1..] == a[1..] + "//" + b && (a + "/" + b)[1..] == a[1..] + "/" + b;
    }
  }

  lemma {:induction false} BackslashesFolded(p: string)
    ensures |FoldBackslashes(p)| == |p|
    ensures forall i :: 0 <= i < |p| ==> FoldBackslashes(p)[i] == if p[i] == '\\' then '/' else p[i]
  {
    if |p| > 0 { BackslashesFolded(p[1..]); }
  }

  /** A semicolon and what follows it in its segment is dropped. */
  lemma ParametersStripped(a: string, parameters: string, b: string)
    requires ';' !in a && '/' !in parameters && (b == "" || b[0] == '/')
    ensures StripParameters(a + ";" + parameters + b) == a + StripParameters(b)
  {
    var p := ";" + parameters + b;
    StripBehind(a, p);
    assert a + p == a + ";" + parameters + b;
    StripUpTo(p, ";" + parameters, b);
  }

  lemma StripUpTo(p: string, head: string, b: string)
    requires head != "" && head[0] == ';' && '/' !in head && (b == "" || b[0] == '/') && p == head + b
    ensures StripParameters(p) == StripParameters(b)
  {
    var n := |head|;
    assert p[..n] == head && p[n..] == b;
    assert b != "" ==> p[n] == b[0];
    NextSlash(p, n);
  }

  lemma NextSlash(p: string, n: nat)
    requires n <= |p| && '/' !in p[..n] && (n == |p| || p[n] == '/')
    ensures SlashFrom(p, 0) == n
  {
    forall k | 0 <= k < n ensures p[k] != '/' { assert p[k] in p[..n]; }
    assert SlashFrom(p, 0) >= n;
  }

  lemma {:induction false} StripBehind(a: string, p: string)
    requires ';' !in a
    ensures StripParameters(a + p) == a + StripParameters(p)
  {
    if a == "" {
      assert a + p == p;
    } else {
      assert a[0] in a && (a + p)[1..] == a[1..] + p;
      StripBehind(a[1..], p);
      assert a == [a[0]] + a[1..];
    }
  }

  ghost function HexDigits(): seq<string> { ["0123456789abcdef", "0123456789ABCDEF"] }

  /** v is the value of the digit c. */
  ghost predicate HexDigit(c: char, v: nat) { v < 16 && (HexDigits()[0][v] == c || HexDigits()[1][v] == c) }

  lemma DigitValue(c: char, v: nat)
    requires HexDigit(c, v)
    ensures HexValue(c) == Some(v)
  {
    var low, high := HexDigits()[0], HexDigits()[1];
    assert v < 10 ==> low[v] == '0' + v as char && high[v] == '0' + v as char;
    assert v >= 10 ==> low[v] == 'a' + (v - 10) as char && high[v] == 'A' + (v - 10) as char;
  }

  /** An escape stands for the character whose code its digits, of either case, spell;
      any other character for itself. */
  lemma EscapeDecoded(c: char, h: char, l: char, hi: nat, lo: nat, rest: string)
    requires HexDigit(h, hi) && HexDigit(l, lo)
    ensures DecodePercent(['%', h, l] + rest) == [(16 * hi + lo) as char] + DecodePercent(rest)
    ensures c != '%' ==> DecodePercent([c] + rest) == [c] + DecodePercent(rest)
  {
    DigitValue(h, hi);
    DigitValue(l, lo);
    assert (['%', h, l] + rest)[3..] == rest && ([c] + rest)[1..] == rest;
  }
}
