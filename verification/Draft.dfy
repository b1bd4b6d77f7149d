/** The composer draft (web/src/app/draft/tokens.ts, web/src/app/draft/triggers.ts): one string, the
    grammar that finds its tokens, and the mention trigger that writes one. */
module Draft {
  import opened Collections

  // ---------------------------------------------------------------------------
  // The mention codec
  // ---------------------------------------------------------------------------

  /** Replace every occurrence of `pattern`, left to right. */
  function ReplaceAll(s: string, pattern: string, instead: string): string
    requires pattern != ""
  {
    if |s| < |pattern| then s
    else if pattern <= s then instead + ReplaceAll(s[|pattern|..], pattern, instead)
    else [s[0]] + ReplaceAll(s[1..], pattern, instead)
  }

  function EncodeMentionValue(value: string): string {
    ReplaceAll(ReplaceAll(value, "%", "%25"), " ", "%20")
  }

  function DecodeMentionValue(value: string): string {
    ReplaceAll(ReplaceAll(value, "%20", " "), "%25", "%")
  }

  /** What one character is escaped to. */
  function Escaped(c: char): string {
    if c == '%' then "%25" else if c == ' ' then "%20" else [c]
  }

  /** One character that does not start the pattern passes through. */
  lemma PassThrough(c: char, rest: string, pattern: string, instead: string)
    requires pattern != "" && c != pattern[0]
    ensures ReplaceAll([c] + rest, pattern, instead) == [c] + ReplaceAll(rest, pattern, instead)
  {
    assert ([c] + rest)[1..] == rest;
  }

  lemma Replaced(rest: string, pattern: string, instead: string)
    requires pattern != ""
    ensures ReplaceAll(pattern + rest, pattern, instead) == instead + ReplaceAll(rest, pattern, instead)
  {
    assert pattern <= pattern + rest;
    assert (pattern + rest)[|pattern|..] == rest;
  }

  lemma PercentStep(c: char, rest: string)
    ensures ReplaceAll([c] + rest, "%", "%25") == (if c == '%' then "%25" else [c]) + ReplaceAll(rest, "%", "%25")
  {
    if c == '%' { Replaced(rest, "%", "%25"); } else { PassThrough(c, rest, "%", "%25"); }
  }

  /** Encoding works character by character. */
  lemma EncodeStep(c: char, rest: string)
    ensures EncodeMentionValue([c] + rest) == Escaped(c) + EncodeMentionValue(rest)
  {
    hide ReplaceAll;
    var later := ReplaceAll(rest, "%", "%25");
    PercentStep(c, rest);
    if c == '%' {
      assert "%25" + later == ['%'] + (['2'] + (['5'] + later));
      PassThrough('%', ['2'] + (['5'] + later), " ", "%20");
      PassThrough('2', ['5'] + later, " ", "%20");
      PassThrough('5', later, " ", "%20");
    } else if c == ' ' {
      Replaced(later, " ", "%20");
    } else {
      PassThrough(c, later, " ", "%20");
    }
  }

  /** A `%` that is not the pattern's escape passes through with the two characters after it. */
  lemma OtherEscape(escape: string, rest: string, pattern: string, instead: string)
    requires |escape| == 3 && |pattern| == 3 && escape != pattern && escape[0] == pattern[0] == '%'
    requires escape[1] != '%' && escape[2] != '%'
    ensures ReplaceAll(escape + rest, pattern, instead) == escape + ReplaceAll(rest, pattern, instead)
  {
    var s := escape + rest;
    assert s[..3] == escape;
    assert !(pattern <= s);
    assert s[1..] == [escape[1]] + ([escape[2]] + rest);
    PassThrough(escape[1], [escape[2]] + rest, pattern, instead);
    PassThrough(escape[2], rest, pattern, instead);
  }

  /** The first decoding pass undoes the second encoding pass. */
  lemma {:induction false} SpacesDecode(value: string)
    ensures ReplaceAll(EncodeMentionValue(value), "%20", " ") == ReplaceAll(value, "%", "%25")
  {
    hide EncodeMentionValue;
    if value == "" {
      EncodeNothing();
    } else {
      var c, rest := value[0], value[1..];
      var later := EncodeMentionValue(rest);
      assert value == [c] + rest;
      SpacesDecode(rest);
      EncodeStep(c, rest);
      PercentStep(c, rest);
      hide ReplaceAll;
      if c == '%' {
        OtherEscape("%25", later, "%20", " ");
      } else if c == ' ' {
        Replaced(later, "%20", " ");
      } else {
        PassThrough(c, later, "%20", " ");
      }
    }
  }

  lemma EncodeNothing()
    ensures EncodeMentionValue("") == ""
  {
  }

  lemma {:induction false} PercentsDecode(value: string)
    ensures ReplaceAll(ReplaceAll(value, "%", "%25"), "%25", "%") == value
  {
    if value != "" {
      var c, rest := value[0], value[1..];
      assert value == [c] + rest;
      PercentsDecode(rest);
      PercentStep(c, rest);
      hide ReplaceAll;
      var later := ReplaceAll(rest, "%", "%25");
      if c == '%' { Replaced(later, "%25", "%"); } else { PassThrough(c, later, "%25", "%"); }
    }
  }

  /** Decoding an encoded mention returns every value. */
  lemma MentionRoundTrip(value: string)
    ensures DecodeMentionValue(EncodeMentionValue(value)) == value
  {
    SpacesDecode(value);
    PercentsDecode(value);
  }

  // ---------------------------------------------------------------------------
  // Tokens
  // ---------------------------------------------------------------------------

  const SKILL_PREFIX := "[skill "
  const PASTED_PREFIX := "[pasted text "
  const ATTACHMENT_PREFIX := "[attachment "

  /** The `\s` class of ECMAScript. */
  predicate IsSpace(c: char) {
    || '\t' <= c <= '\r' || c == ' ' || c == '\U{a0}' || c == '\U{1680}' || '\U{2000}' <= c <= '\U{200a}'
    || c == '\U{2028}' || c == '\U{2029}' || c == '\U{202f}' || c == '\U{205f}' || c == '\U{3000}' || c == '\U{feff}'
  }

  predicate IsMentionChar(c: char) {
    !IsSpace(c) && c != '@'
  }

  function MentionRun(s: string): (n: nat)
    ensures n <= |s|
    ensures forall i :: 0 <= i < n ==> IsMentionChar(s[i])
    ensures n < |s| ==> !IsMentionChar(s[n])
  {
    if s == "" || !IsMentionChar(s[0]) then 0 else 1 + MentionRun(s[1..])
  }

  /** The length of a token `prefix`, body, `]` at the start of `s`; 0 when there is none. */
  function BracketLength(s: string, prefix: string): (n: nat)
    ensures n <= |s|
  {
    if !(prefix <= s) then 0
    else
      var n := IndexOf(s[|prefix|..], ']');
      if 0 < n < |s| - |prefix| then |prefix| + n + 1 else 0
  }

  /** The length of the token at the start of `s`, or 0. */
  function TokenLength(s: string): (n: nat)
    ensures n <= |s|
  {
    var attachment, pasted, skill :=
      BracketLength(s, ATTACHMENT_PREFIX), BracketLength(s, PASTED_PREFIX), BracketLength(s, SKILL_PREFIX);
    if attachment > 0 then attachment
    else if pasted > 0 then pasted
    else if skill > 0 then skill
    else if s != "" && s[0] == '@' && MentionRun(s[1..]) > 0 then 1 + MentionRun(s[1..])
    else 0
  }

  /** Splitting by the token pattern: text, token, text, token, ..., text. */
  function Pieces(text: string, rest: string): (pieces: seq<string>)
    ensures |pieces| % 2 == 1
    ensures text <= pieces[0]
    decreases |rest|
  {
    hide TokenLength;
    if rest == "" then [text]
    else
      var n := TokenLength(rest);
      if n > 0 then [text, rest[..n]] + Pieces("", rest[n..]) else Pieces(text + [rest[0]], rest[1..])
  }

  datatype SegmentKind = TextSegment | MentionSegment | SkillSegment | PastedSegment | AttachmentSegment

  datatype Segment = Segment(kind: SegmentKind, text: string, value: string)

  /** A bracket token without its prefix and its `]`. */
  function Inner(token: string, prefix: string): string {
    if |prefix| < |token| then token[|prefix|..|token| - 1] else ""
  }

  function ClassifyToken(token: string): (segment: Segment)
    ensures segment.text == token && segment.kind != TextSegment
  {
    if ['@'] <= token then Segment(MentionSegment, token, DecodeMentionValue(token[1..]))
    else if SKILL_PREFIX <= token then Segment(SkillSegment, token, Inner(token, SKILL_PREFIX))
    else if PASTED_PREFIX <= token then Segment(PastedSegment, token, Inner(token, PASTED_PREFIX))
    else Segment(AttachmentSegment, token, Inner(token, ATTACHMENT_PREFIX))
  }

  /** Empty pieces are dropped; a piece is a token exactly when its index is odd. */
  function SegmentAt(piece: string, index: nat): seq<Segment> {
    if piece == "" then []
    else [if index % 2 == 1 then ClassifyToken(piece) else Segment(TextSegment, piece, piece)]
  }

  function SegmentsOf(pieces: seq<string>): seq<Segment> {
    if pieces == [] then []
    else SegmentsOf(pieces[..|pieces| - 1]) + SegmentAt(pieces[|pieces| - 1], |pieces| - 1)
  }

  function Split(draft: string): seq<Segment> {
    SegmentsOf(Pieces("", draft))
  }

  method SplitDraft(draft: string) returns (segments: seq<Segment>)
    ensures segments == Split(draft)
  {
    var pieces := Pieces("", draft);
    segments := [];
    for i := 0 to |pieces|
      invariant segments == SegmentsOf(pieces[..i])
    {
      assert pieces[..i + 1][..i] == pieces[..i];
      if pieces[i] == "" { continue; }
      segments := segments +
        [if i % 2 == 1 then ClassifyToken(pieces[i]) else Segment(TextSegment, pieces[i], pieces[i])];
    }
    assert pieces[..|pieces|] == pieces;
  }

  function SerializeDraft(segments: seq<Segment>): string {
    if segments == [] then "" else SerializeDraft(segments[..|segments| - 1]) + segments[|segments| - 1].text
  }

  lemma SerializeSegmentAt(segments: seq<Segment>, piece: string, index: nat)
    ensures SerializeDraft(segments + SegmentAt(piece, index)) == SerializeDraft(segments) + piece
  {
    var more := segments + SegmentAt(piece, index);
    if piece == "" {
      assert more == segments;
    } else {
      assert more[..|segments|] == segments;
    }
  }

  lemma {:induction false} SerializeSegments(pieces: seq<string>)
    ensures SerializeDraft(SegmentsOf(pieces)) == Flatten(pieces)
  {
    if pieces != [] {
      var n := |pieces| - 1;
      SerializeSegments(pieces[..n]);
      SerializeSegmentAt(SegmentsOf(pieces[..n]), pieces[n], n);
    }
  }

  lemma FlattenPair(a: string, b: string)
    ensures Flatten([a, b]) == a + b
  {
    FlattenSnoc([], a);
    FlattenSnoc([a], b);
    assert [] + [a] == [a] && [a] + [b] == [a, b];
  }

  lemma JoinAt(text: string, rest: string, n: nat)
    requires n <= |rest|
    ensures text + rest[..n] + ("" + rest[n..]) == text + rest
    ensures n > 0 ==> text + [rest[0]] + rest[1..] == text + rest
  {
    assert rest == rest[..n] + rest[n..];
  }

  lemma {:induction false} PiecesJoin(text: string, rest: string)
    ensures Flatten(Pieces(text, rest)) == text + rest
    decreases |rest|
  {
    if rest == "" {
      FlattenSnoc([], text);
      assert [] + [text] == [text];
    } else {
      var n := TokenLength(rest);
      hide TokenLength;
      hide Flatten;
      if n > 0 {
        PiecesJoin("", rest[n..]);
        FlattenConcat([text, rest[..n]], Pieces("", rest[n..]));
        FlattenPair(text, rest[..n]);
        JoinAt(text, rest, n);
      } else {
        PiecesJoin(text + [rest[0]], rest[1..]);
        JoinAt(text, rest, 1);
      }
    }
  }

  /** Serializing a split returns every string unchanged. */
  lemma DraftRoundTrip(draft: string)
    ensures SerializeDraft(Split(draft)) == draft
  {
    SerializeSegments(Pieces("", draft));
    PiecesJoin("", draft);
  }

  // ---------------------------------------------------------------------------
  // The mention trigger
  // ---------------------------------------------------------------------------

  /** A mention query: an `@` at a word boundary, and only query characters from there to the end. */
  predicate TriggersAt(draft: string, at: nat) {
    && at < |draft| && draft[at] == '@'
    && (forall i :: at < i < |draft| ==> IsMentionChar(draft[i]))
    && (at == 0 || IsSpace(draft[at - 1]))
  }

  /** The position of the last character that is not part of a query. */
  function QueryStart(draft: string, end: nat): (start: nat)
    requires end <= |draft|
    ensures start <= end
    ensures forall i :: start <= i < end ==> IsMentionChar(draft[i])
    ensures start > 0 ==> !IsMentionChar(draft[start - 1])
  {
    if end == 0 || !IsMentionChar(draft[end - 1]) then end else QueryStart(draft, end - 1)
  }

  function MentionTrigger(draft: string): (at: Option<nat>)
    ensures at.Some? ==> TriggersAt(draft, at.value)
    ensures at.None? ==> forall i: nat :: !TriggersAt(draft, i)
  {
    var start := QueryStart(draft, |draft|);
    if start > 0 && draft[start - 1] == '@' && (start == 1 || IsSpace(draft[start - 2])) then Some(start - 1)
    else None
  }

  function MentionToken(value: string): string {
    ['@'] + EncodeMentionValue(value)
  }

  /** The query gives way to the token and a space; without a trigger nothing changes. */
  function CommitMention(draft: string, value: string): string {
    match MentionTrigger(draft)
    case Some(at) => draft[..at] + MentionToken(value) + " "
    case None => draft
  }

  // ---------------------------------------------------------------------------
  // What a committed mention reads as
  // ---------------------------------------------------------------------------

  predicate AllMentionChars(s: string) {
    forall c :: c in s ==> IsMentionChar(c)
  }

  /** A value whose encoding is one token: non-empty, no `@`, no whitespace but spaces. */
  predicate Mentionable(value: string) {
    value != "" && forall c :: c in value ==> IsMentionChar(c) || c == ' '
  }

  lemma EscapedChars(c: char)
    ensures AllMentionChars(Escaped(c)) <==> IsMentionChar(c) || c == ' '
    ensures ']' in Escaped(c) <==> c == ']'
    ensures Escaped(c) != ""
  {
    var e := Escaped(c);
    if c == '%' || c == ' ' {
      assert forall d :: d in e ==> d in {'%', '2', '5', '0'};
    } else {
      assert c in e;
    }
  }

  /** The encoding is one run of mention characters exactly for a mentionable value. */
  lemma {:induction false} EncodedChars(value: string)
    ensures AllMentionChars(EncodeMentionValue(value)) <==> forall c :: c in value ==> IsMentionChar(c) || c == ' '
    ensures ']' in EncodeMentionValue(value) <==> ']' in value
    ensures EncodeMentionValue(value) == "" <==> value == ""
  {
    hide EncodeMentionValue;
    if value == "" {
      EncodeNothing();
    } else {
      var c, rest := value[0], value[1..];
      assert value == [c] + rest;
      EncodedChars(rest);
      EncodeStep(c, rest);
      EscapedChars(c);
      hide Escaped;
      hide IsMentionChar;
      var later := EncodeMentionValue(rest);
      assert forall d :: d in Escaped(c) + later <==> d in Escaped(c) || d in later;
      assert forall d :: d in value <==> d == c || d in rest;
    }
  }

  /** The start of a text that ends at a word boundary. */
  predicate AtBoundary(s: string) {
    s == "" || IsSpace(s[|s| - 1])
  }

  /** A bracket token begins here and does not end. */
  predicate IsOpen(s: string, prefix: string) {
    prefix <= s && ']' !in s[|prefix|..]
  }

  predicate AnyOpen(s: string) {
    IsOpen(s, SKILL_PREFIX) || IsOpen(s, PASTED_PREFIX) || IsOpen(s, ATTACHMENT_PREFIX)
  }

  /** Read from the left, the text leaves a bracket token open. */
  predicate LeavesOpen(rest: string)
    decreases |rest|
  {
    rest != ""
    && var n := TokenLength(rest);
       if n > 0 then LeavesOpen(rest[n..]) else AnyOpen(rest) || LeavesOpen(rest[1..])
  }

  lemma {:induction false} IndexOfAppend(a: string, b: string, c: char)
    ensures IndexOf(a + b, c) == if c in a then IndexOf(a, c) else |a| + IndexOf(b, c)
  {
    if a == "" {
      assert a + b == b;
    } else {
      assert (a + b)[1..] == a[1..] + b;
      IndexOfAppend(a[1..], b, c);
    }
  }

  lemma IndexOfIn(s: string, c: char)
    ensures IndexOf(s, c) < |s| <==> c in s
  {
  }

  /** A prefix without `@` cannot end after a boundary that an `@` follows. */
  lemma NoStraddle(s: string, tail: string, prefix: string)
    requires '@' !in prefix && tail != "" && tail[0] == '@'
    ensures prefix <= s + tail <==> prefix <= s
    ensures prefix <= s ==> (s + tail)[|prefix|..] == s[|prefix|..] + tail
  {
    assert forall i :: 0 <= i < |prefix| ==> prefix[i] != '@';
    assert (s + tail)[|s|] == '@';
  }

  /** How more text changes one bracket alternative. */
  lemma BracketAppend(s: string, tail: string, prefix: string)
    requires '@' !in prefix && tail != "" && tail[0] == '@'
    ensures !IsOpen(s, prefix) || ']' !in tail ==> BracketLength(s + tail, prefix) == BracketLength(s, prefix)
    ensures IsOpen(s, prefix) && ']' in tail ==> BracketLength(s + tail, prefix) > |s| && BracketLength(s, prefix) == 0
  {
    NoStraddle(s, tail, prefix);
    if prefix <= s {
      var body := s[|prefix|..];
      IndexOfAppend(body, tail, ']');
      IndexOfIn(body, ']');
      IndexOfIn(tail, ']');
      hide IndexOf;
    }
  }

  /** One bracket prefix excludes the others. */
  lemma OnePrefix(s: string)
    ensures BracketLength(s, SKILL_PREFIX) > 0 ==> s[0] == '[' && s[1] == 's'
    ensures BracketLength(s, PASTED_PREFIX) > 0 ==> s[0] == '[' && s[1] == 'p'
    ensures BracketLength(s, ATTACHMENT_PREFIX) > 0 ==> s[0] == '[' && s[1] == 'a'
    ensures IsOpen(s, SKILL_PREFIX) ==> s[0] == '[' && s[1] == 's'
    ensures IsOpen(s, PASTED_PREFIX) ==> s[0] == '[' && s[1] == 'p'
    ensures IsOpen(s, ATTACHMENT_PREFIX) ==> s[0] == '[' && s[1] == 'a'
  {
  }

  lemma {:induction false} MentionRunAppend(s: string, tail: string)
    requires AtBoundary(s) && s != ""
    ensures MentionRun(s + tail) == MentionRun(s)
  {
    if IsMentionChar(s[0]) {
      assert |s| > 1 && (s + tail)[1..] == s[1..] + tail;
      MentionRunAppend(s[1..], tail);
    }
  }

  /** A tail that starts with `@`, after a word boundary, does not change the token before it, unless it
      closes an open one. Other tails can: `[pasted ` is not open, and `text a]` completes it. */
  lemma TokenAppend(s: string, tail: string)
    requires s != "" && AtBoundary(s) && tail != "" && tail[0] == '@'
    ensures !AnyOpen(s) || ']' !in tail ==> TokenLength(s + tail) == TokenLength(s)
    ensures AnyOpen(s) && ']' in tail ==> TokenLength(s + tail) > |s| && TokenLength(s) == 0
  {
    hide BracketLength;
    hide IsOpen;
    BracketAppend(s, tail, SKILL_PREFIX);
    BracketAppend(s, tail, PASTED_PREFIX);
    BracketAppend(s, tail, ATTACHMENT_PREFIX);
    OnePrefix(s);
    if s[0] == '@' {
      assert |s| > 1 && (s + tail)[1..] == s[1..] + tail;
      MentionRunAppend(s[1..], tail);
    }
  }

  /** The pieces of `s + tail` are those of `s`, then those of `tail`: no token crosses. */
  ghost predicate Splices(text: string, s: string, tail: string) {
    var before := Pieces(text, s);
    Pieces(text, s + tail) == before[..|before| - 1] + Pieces(before[|before| - 1], tail)
  }

  /** One step of the scan. */
  lemma PiecesStep(text: string, s: string)
    requires s != ""
    ensures var n := TokenLength(s);
            Pieces(text, s) == if n > 0 then [text, s[..n]] + Pieces("", s[n..]) else Pieces(text + [s[0]], s[1..])
  {
  }

  lemma LastPiece(text: string)
    ensures Pieces(text, "") == [text]
  {
  }

  lemma SpliceAfter(text: string, token: string, s: string, tail: string)
    requires Splices("", s, tail)
    ensures var later := Pieces("", s);
            var before := [text, token] + later;
            [text, token] + Pieces("", s + tail) == before[..|before| - 1] + Pieces(before[|before| - 1], tail)
  {
    hide Pieces;
    var later := Pieces("", s);
    var before := [text, token] + later;
    assert before[..|before| - 1] == [text, token] + later[..|later| - 1];
  }

  lemma SpliceNothing(text: string, tail: string)
    ensures Splices(text, "", tail)
  {
    assert "" + tail == tail;
  }

  lemma {:induction false} PiecesAppend(text: string, s: string, tail: string)
    requires AtBoundary(s) && tail != "" && tail[0] == '@' && !(LeavesOpen(s) && ']' in tail)
    ensures Splices(text, s, tail)
    decreases |s|
  {
    hide Pieces;
    hide TokenLength;
    hide AnyOpen;
    hide IsSpace;
    if s == "" {
      SpliceNothing(text, tail);
    } else {
      var n := TokenLength(s);
      TokenAppend(s, tail);
      PiecesStep(text, s);
      PiecesStep(text, s + tail);
      if n > 0 {
        assert (s + tail)[n..] == s[n..] + tail && (s + tail)[..n] == s[..n];
        PiecesAppend("", s[n..], tail);
        SpliceAfter(text, s[..n], s[n..], tail);
      } else {
        assert (s + tail)[1..] == s[1..] + tail;
        PiecesAppend(text + [s[0]], s[1..], tail);
      }
    }
  }

  /** Which alternative a text can start with. */
  lemma TokenByStart(s: string)
    ensures s != "" && s[0] == '@' ==> TokenLength(s) == if MentionRun(s[1..]) > 0 then 1 + MentionRun(s[1..]) else 0
    ensures |s| > 1 && s[0] == '[' && s[1] == 's' ==> TokenLength(s) == BracketLength(s, SKILL_PREFIX)
    ensures |s| > 1 && s[0] == '[' && s[1] == 'p' ==> TokenLength(s) == BracketLength(s, PASTED_PREFIX)
    ensures |s| > 1 && s[0] == '[' && s[1] == 'a' ==> TokenLength(s) == BracketLength(s, ATTACHMENT_PREFIX)
    ensures s != "" && s[0] != '@' && s[0] != '[' ==> TokenLength(s) == 0
  {
    OnePrefix(s);
    hide BracketLength;
    hide MentionRun;
  }

  /** A token of mention characters before a space is one piece. */
  lemma PiecesOfToken(text: string, encoded: string)
    requires encoded != "" && AllMentionChars(encoded)
    ensures Pieces(text, ['@'] + encoded + " ") == [text, ['@'] + encoded, " "]
  {
    hide TokenLength;
    hide Pieces;
    hide IsSpace;
    var s := ['@'] + encoded + " ";
    RunOfToken(encoded);
    TokenByStart(s);
    assert s[1..] == encoded + " ";
    assert s[..1 + |encoded|] == ['@'] + encoded && s[1 + |encoded|..] == " ";
    PiecesStep(text, s);
    TokenByStart(" ");
    PiecesStep("", " ");
    LastPiece(" ");
    assert "" + [' '] == " " && " "[1..] == "";
    assert [text, ['@'] + encoded] + [" "] == [text, ['@'] + encoded, " "];
  }

  lemma {:induction false} RunOfToken(encoded: string)
    requires AllMentionChars(encoded)
    ensures MentionRun(encoded + " ") == |encoded|
  {
    if encoded != "" {
      assert (encoded + " ")[1..] == encoded[1..] + " ";
      assert encoded[0] in encoded;
      RunOfToken(encoded[1..]);
    }
  }

  lemma SegmentsLast(pieces: seq<string>)
    requires pieces != []
    ensures var n := |pieces| - 1;
            SegmentsOf(pieces) == SegmentsOf(pieces[..n]) + SegmentAt(pieces[n], n)
  {
  }

  /** Two more pieces after an odd number of them: a token and text. */
  lemma SegmentsSnoc(pieces: seq<string>, token: string, after: string)
    requires |pieces| % 2 == 1 && token != "" && after != ""
    ensures SegmentsOf(pieces + [token, after])
         == SegmentsOf(pieces) + [ClassifyToken(token), Segment(TextSegment, after, after)]
  {
    hide *;
    TwoPieces(token, after, |pieces|);
    SegmentsTwo(pieces, token, after);
    Associate(SegmentsOf(pieces), SegmentAt(token, |pieces|), SegmentAt(after, |pieces| + 1));
  }

  lemma SegmentsTwo(pieces: seq<string>, a: string, b: string)
    ensures SegmentsOf(pieces + [a, b]) == SegmentsOf(pieces) + SegmentAt(a, |pieces|) + SegmentAt(b, |pieces| + 1)
  {
    hide *;
    var two := pieces + [a, b];
    var one := two[..|pieces| + 1];
    SegmentsLast(two);
    SegmentsLast(one);
    assert one[..|pieces|] == pieces;
  }

  lemma Associate<T>(a: seq<T>, b: seq<T>, c: seq<T>)
    ensures a + b + c == a + (b + c)
  {
  }

  lemma TwoPieces(token: string, after: string, index: nat)
    requires index % 2 == 1 && token != "" && after != ""
    ensures SegmentAt(token, index) + SegmentAt(after, index + 1)
         == [ClassifyToken(token), Segment(TextSegment, after, after)]
  {
    hide ClassifyToken;
  }

  /** The mention segment of a value. */
  function Mention(value: string): Segment {
    Segment(MentionSegment, MentionToken(value), value)
  }

  lemma ClassifiesMention(value: string)
    ensures ClassifyToken(MentionToken(value)) == Mention(value)
  {
    MentionRoundTrip(value);
    assert MentionToken(value)[1..] == EncodeMentionValue(value);
  }

  /** What committing a mention is meant to do: the earlier text reads as before, the value is one mention. */
  ghost predicate ReadsAsMention(before: string, value: string) {
    Split(before + MentionToken(value) + " ") == Split(before) + [Mention(value), Segment(TextSegment, " ", " ")]
  }

  lemma MentionReads(before: string, value: string)
    requires AtBoundary(before) && Mentionable(value) && !(LeavesOpen(before) && ']' in value)
    ensures ReadsAsMention(before, value)
  {
    hide EncodeMentionValue;
    hide Pieces;
    hide Split;
    hide LeavesOpen;
    hide Splices;
    EncodedChars(value);
    var encoded := EncodeMentionValue(value);
    var tail := ['@'] + encoded + " ";
    TailChars(encoded);
    hide AllMentionChars;
    PiecesAppend("", before, tail);
    var pieces := Pieces("", before);
    PiecesOfToken(pieces[|pieces| - 1], encoded);
    assert before + MentionToken(value) + " " == before + tail;
    SplicedSegments(before, tail, value);
  }

  lemma TailChars(encoded: string)
    ensures ']' in ['@'] + encoded + " " <==> ']' in encoded
  {
  }

  lemma SplicedSegments(before: string, tail: string, value: string)
    requires tail == MentionToken(value) + " " && Splices("", before, tail)
    requires var pieces := Pieces("", before);
             Pieces(pieces[|pieces| - 1], tail) == [pieces[|pieces| - 1], MentionToken(value), " "]
    ensures Split(before + tail) == Split(before) + [Mention(value), Segment(TextSegment, " ", " ")]
  {
    hide Pieces;
    var pieces := Pieces("", before);
    var n := |pieces| - 1;
    assert pieces[..n] + [pieces[n], MentionToken(value), " "] == pieces + [MentionToken(value), " "];
    ClassifiesMention(value);
    SegmentsSnoc(pieces, MentionToken(value), " ");
  }

  // ---------------------------------------------------------------------------
  // When it does not
  // ---------------------------------------------------------------------------

  /** If it starts with `@`, it is `@` and at least one mention character. */
  predicate TokenShaped(token: string) {
    token != "" && (token[0] == '@' ==> |token| >= 2 && AllMentionChars(token[1..]))
  }

  lemma TokenIsShaped(s: string)
    requires TokenLength(s) > 0
    ensures TokenShaped(s[..TokenLength(s)])
  {
    var n := TokenLength(s);
    OnePrefix(s);
    if s[0] == '@' {
      assert forall i :: 0 <= i < n - 1 ==> s[..n][1..][i] == s[1..][i];
    }
  }

  lemma {:induction false} TokensAreShaped(text: string, rest: string)
    ensures forall i :: 0 <= i < |Pieces(text, rest)| && i % 2 == 1 ==> TokenShaped(Pieces(text, rest)[i])
    decreases |rest|
  {
    hide Pieces;
    hide TokenLength;
    hide TokenShaped;
    if rest == "" {
      LastPiece(text);
    } else {
      var n := TokenLength(rest);
      PiecesStep(text, rest);
      if n > 0 {
        TokensAreShaped("", rest[n..]);
        TokenIsShaped(rest);
      } else {
        TokensAreShaped(text + [rest[0]], rest[1..]);
      }
    }
  }

  lemma {:induction false} MentionsAreShaped(pieces: seq<string>)
    requires forall i :: 0 <= i < |pieces| && i % 2 == 1 ==> TokenShaped(pieces[i])
    ensures forall g :: g in SegmentsOf(pieces) && g.kind == MentionSegment ==> TokenShaped(g.text) && g.text[0] == '@'
  {
    if pieces != [] {
      MentionsAreShaped(pieces[..|pieces| - 1]);
    }
  }

  lemma ReadsOnlyMentionable(before: string, value: string)
    requires ReadsAsMention(before, value)
    ensures Mentionable(value)
  {
    hide EncodeMentionValue;
    hide Pieces;
    hide SegmentsOf;
    var whole := before + MentionToken(value) + " ";
    TokensAreShaped("", whole);
    MentionsAreShaped(Pieces("", whole));
    assert Split(whole)[|Split(before)|] == Mention(value);
    assert Mention(value) in Split(whole);
    assert MentionToken(value)[1..] == EncodeMentionValue(value);
    EncodedChars(value);
  }

  lemma {:induction false} SegmentsEven(a: seq<string>, b: seq<string>)
    requires |a| % 2 == 0
    ensures SegmentsOf(a + b) == SegmentsOf(a) + SegmentsOf(b)
  {
    hide SegmentAt;
    if b == [] {
      assert a + b == a;
    } else {
      var n := |b| - 1;
      assert (a + b)[..|a| + n] == a + b[..n];
      SegmentsEven(a, b[..n]);
      SameParity(b[n], |a| + n, n);
      Associate(SegmentsOf(a), SegmentsOf(b[..n]), SegmentAt(b[n], n));
    }
  }

  lemma SameParity(piece: string, i: nat, j: nat)
    requires i % 2 == j % 2
    ensures SegmentAt(piece, i) == SegmentAt(piece, j)
  {
  }

  /** The first segment is the first text, or the first token when that text is empty. */
  lemma {:induction false} SegmentsHead(pieces: seq<string>)
    requires pieces != [] && (pieces[0] != "" || (|pieces| > 1 && pieces[1] != ""))
    ensures SegmentsOf(pieces) != []
    ensures SegmentsOf(pieces)[0]
         == if pieces[0] != "" then Segment(TextSegment, pieces[0], pieces[0]) else ClassifyToken(pieces[1])
  {
    hide ClassifyToken;
    var n := |pieces| - 1;
    if n == 0 {
      assert SegmentsOf(pieces[..0]) == [];
    } else if n == 1 && pieces[0] == "" {
      assert pieces[..1] == [""] && [""][..0] == [];
    } else {
      SegmentsHead(pieces[..n]);
    }
  }

  /** An open bracket token swallows the text up to the `]`. */
  lemma {:induction false} OpenSwallows(text: string, s: string, tail: string, more: seq<Segment>)
    requires AtBoundary(s) && tail != "" && tail[0] == '@' && LeavesOpen(s) && ']' in tail
    ensures SegmentsOf(Pieces(text, s + tail)) != SegmentsOf(Pieces(text, s)) + more
    decreases |s|
  {
    hide Pieces;
    hide TokenLength;
    hide AnyOpen;
    hide IsSpace;
    hide SegmentsOf;
    var n := TokenLength(s);
    TokenAppend(s, tail);
    PiecesStep(text, s);
    PiecesStep(text, s + tail);
    if n > 0 {
      assert (s + tail)[n..] == s[n..] + tail && (s + tail)[..n] == s[..n];
      OpenSwallows("", s[n..], tail, more);
      SegmentsEven([text, s[..n]], Pieces("", s[n..] + tail));
      SegmentsEven([text, s[..n]], Pieces("", s[n..]));
      SamePrefix(SegmentsOf([text, s[..n]]), SegmentsOf(Pieces("", s[n..] + tail)), SegmentsOf(Pieces("", s[n..])),
                 more);
    } else if AnyOpen(s) {
      SegmentsHead(Pieces(text, s + tail));
      SegmentsHead(Pieces(text, s));
    } else {
      assert (s + tail)[1..] == s[1..] + tail;
      OpenSwallows(text + [s[0]], s[1..], tail, more);
    }
  }

  lemma SamePrefix<T>(a: seq<T>, x: seq<T>, y: seq<T>, more: seq<T>)
    requires x != y + more
    ensures a + x != a + y + more
  {
    assert (a + x)[|a|..] == x;
    assert (a + y + more)[|a|..] == y + more;
  }

  lemma SwallowsMention(before: string, value: string)
    requires AtBoundary(before) && LeavesOpen(before) && ']' in value
    ensures !ReadsAsMention(before, value)
  {
    hide EncodeMentionValue;
    hide Pieces;
    hide SegmentsOf;
    hide LeavesOpen;
    EncodedChars(value);
    var tail := MentionToken(value) + " ";
    TailChars(EncodeMentionValue(value));
    OpenSwallows("", before, tail, [Mention(value), Segment(TextSegment, " ", " ")]);
    assert before + MentionToken(value) + " " == before + tail;
  }

  /** Committing a mention onto a draft that ends in a trigger leaves the earlier text untouched and
      adds one mention of the value and a space, exactly when the value is non-empty without `@` or
      whitespace other than spaces, and does not close a bracket token the earlier text left open. */
  lemma CommitReadsAsMention(draft: string, value: string)
    requires MentionTrigger(draft).Some?
    ensures var before := draft[..MentionTrigger(draft).value];
            Split(CommitMention(draft, value)) == Split(before) + [Mention(value), Segment(TextSegment, " ", " ")]
            <==> Mentionable(value) && !(LeavesOpen(before) && ']' in value)
  {
    hide Split;
    hide LeavesOpen;
    hide Mentionable;
    var before := draft[..MentionTrigger(draft).value];
    assert AtBoundary(before);
    if ReadsAsMention(before, value) {
      ReadsOnlyMentionable(before, value);
      if LeavesOpen(before) && ']' in value { SwallowsMention(before, value); }
    } else if Mentionable(value) && !(LeavesOpen(before) && ']' in value) {
      MentionReads(before, value);
    }
  }

  /** The witness: after an open `[skill `, committing the value `a]` pins a skill named `@a` and
      mentions nothing. */
  lemma MentionBecomesSkill()
    ensures Split(CommitMention("[skill @", "a]"))
         == [Segment(SkillSegment, "[skill @a]", "@a"), Segment(TextSegment, " ", " ")]
  {
    TriggerOfOpenSkill();
    EncodesPlainly();
    hide MentionTrigger;
    hide EncodeMentionValue;
    assert CommitMention("[skill @", "a]") == SkillToken("@a") + " ";
    SkillThenSpace("@a");
    assert SkillToken("@a") == "[skill @a]";
    hide Split;
  }

  lemma TriggerOfOpenSkill()
    ensures MentionTrigger("[skill @") == Some(7)
  {
    var draft := "[skill @";
    assert TriggersAt(draft, 7);
    assert forall i :: 0 <= i < 7 ==> draft[i] != '@';
    hide IsSpace;
  }

  lemma EncodesPlainly()
    ensures EncodeMentionValue("a]") == "a]"
  {
    hide EncodeMentionValue;
    assert "a]" == ['a'] + "]" && "]" == [']'] + "";
    EncodeStep('a', "]");
    EncodeStep(']', "");
    EncodeNothing();
  }

  lemma SkillThenSpace(name: string)
    requires name != "" && ']' !in name
    ensures Split(SkillToken(name) + " ")
         == [Segment(SkillSegment, SkillToken(name), name), Segment(TextSegment, " ", " ")]
  {
    hide *;
    var token := SkillToken(name);
    EmptyIsNoSkill(name);
    ClassifiesBracket(Skill, name);
    PiecesOfSkill(name);
    SegmentsSnoc([""], token, " ");
    EmptyPiece();
    assert [""] + [token, " "] == ["", token, " "];
    SplitMeans(token + " ");
  }

  lemma SplitMeans(draft: string)
    ensures Split(draft) == SegmentsOf(Pieces("", draft))
  {
  }

  lemma EmptyPiece()
    ensures SegmentsOf([""]) == []
  {
    assert [""][..0] == [];
  }

  lemma PiecesOfSkill(name: string)
    requires name != "" && ']' !in name
    ensures Pieces("", SkillToken(name) + " ") == ["", SkillToken(name), " "]
  {
    hide Pieces;
    hide SkillToken;
    hide TokenLength;
    hide IsSpace;
    var token := SkillToken(name);
    var s := token + " ";
    SkillTokenSpaced(name);
    EmptyIsNoSkill(name);
    PiecesStep("", s);
    assert s[..|token|] == token && s[|token|..] == " ";
    TokenByStart(" ");
    PiecesStep("", " ");
    LastPiece(" ");
    assert "" + [' '] == " " && " "[1..] == "";
    assert ["", token] + [" "] == ["", token, " "];
  }

  lemma SkillTokenSpaced(name: string)
    requires name != "" && ']' !in name
    ensures TokenLength(SkillToken(name) + " ") == |SkillToken(name)|
  {
    var s := SkillToken(name) + " ";
    TokenByStart(s);
    hide TokenLength;
    var body := s[|SKILL_PREFIX|..];
    assert SKILL_PREFIX <= s && body == name + "] ";
    IndexOfAppend(name, "] ", ']');
    assert IndexOf("] ", ']') == 0;
    hide IndexOf;
  }

  // ---------------------------------------------------------------------------
  // Bracket tokens
  // ---------------------------------------------------------------------------

  /** The three bracket tokens: their prefix and their kind. */
  datatype Bracket = Skill | Pasted | Attachment

  function PrefixOf(b: Bracket): string {
    match b
    case Skill => "[skill "
    case Pasted => "[pasted text "
    case Attachment => "[attachment "
  }

  function KindOf(b: Bracket): SegmentKind {
    match b
    case Skill => SkillSegment
    case Pasted => PastedSegment
    case Attachment => AttachmentSegment
  }

  function BracketToken(b: Bracket, body: string): string {
    PrefixOf(b) + body + "]"
  }

  function SkillToken(name: string): string {
    BracketToken(Skill, name)
  }

  lemma BracketStarts(b: Bracket, body: string)
    ensures var s := BracketToken(b, body);
            && s == PrefixOf(b) + body + "]"
            && |s| > 1 && s[0] == '['
            && s[1] == (match b case Skill => 's' case Pasted => 'p' case Attachment => 'a')
            && PrefixOf(b) == match b
                              case Skill => SKILL_PREFIX
                              case Pasted => PASTED_PREFIX
                              case Attachment => ATTACHMENT_PREFIX
  {
  }

  lemma BracketTokenLength(b: Bracket, body: string)
    ensures var n := IndexOf(body + "]", ']');
            TokenLength(BracketToken(b, body)) == if n == 0 then 0 else |PrefixOf(b)| + n + 1
  {
    hide *;
    var s := BracketToken(b, body);
    BracketStarts(b, body);
    TokenByStart(s);
    BracketOf(PrefixOf(b), body);
  }

  lemma BracketOf(prefix: string, name: string)
    ensures BracketLength(prefix + name + "]", prefix)
         == if IndexOf(name + "]", ']') == 0 then 0 else |prefix| + IndexOf(name + "]", ']') + 1
  {
    assert (prefix + name + "]")[|prefix|..] == name + "]";
    assert prefix <= prefix + name + "]";
    assert ']' in name + "]" by { assert (name + "]")[|name|] == ']'; }
    IndexOfIn(name + "]", ']');
  }

  /** A pinned skill, a pasted text or an attachment reads back as just that, with its body, exactly when
      the body is non-empty without `]`. */
  lemma BracketReadsBack(b: Bracket, body: string)
    ensures Split(BracketToken(b, body)) == [Segment(KindOf(b), BracketToken(b, body), body)]
       <==> body != "" && ']' !in body
  {
    hide IndexOf;
    hide TokenLength;
    hide Pieces;
    hide SegmentsOf;
    var s := BracketToken(b, body);
    var n := TokenLength(s);
    BracketTokenLength(b, body);
    PiecesStep("", s);
    IndexOfAppend(body, "]", ']');
    IndexOfIn(body, ']');
    SegmentsHead(Pieces("", s));
    if n == |s| {
      LastPiece("");
      assert s[..n] == s && s[n..] == "";
      BracketSegments(b, body);
    }
  }

  /** In particular for a pinned skill. */
  lemma SkillReadsBack(name: string)
    ensures Split("[skill " + name + "]") == [Segment(SkillSegment, "[skill " + name + "]", name)]
       <==> name != "" && ']' !in name
  {
    hide Split;
    BracketReadsBack(Skill, name);
  }

  lemma BracketSegments(b: Bracket, body: string)
    requires body != ""
    ensures SegmentsOf(["", BracketToken(b, body)] + [""]) == [Segment(KindOf(b), BracketToken(b, body), body)]
  {
    var s := BracketToken(b, body);
    ClassifiesBracket(b, body);
    assert s != "";
    hide ClassifyToken;
    hide BracketToken;
    hide SegmentsOf;
    var one, two, all := [""], ["", s], ["", s] + [""];
    assert all[..2] == two && two[..1] == one && one[..0] == [];
    SegmentsLast(all);
    SegmentsLast(two);
    SegmentsLast(one);
    NoSegments();
  }

  lemma NoSegments()
    ensures SegmentsOf([]) == []
  {
  }

  lemma EmptyIsNoSkill(name: string)
    ensures SkillToken(name) != "" && SkillToken(name) == BracketToken(Skill, name) && KindOf(Skill) == SkillSegment
  {
  }

  lemma ClassifiesBracket(b: Bracket, body: string)
    ensures ClassifyToken(BracketToken(b, body)) == Segment(KindOf(b), BracketToken(b, body), body)
  {
    var s := BracketToken(b, body);
    assert s[0] == '[' && s[1] == PrefixOf(b)[1] && PrefixOf(b) <= s;
    assert s[|PrefixOf(b)|..|s| - 1] == body;
  }

  /** The white space that ends a mention, by code point. */
  lemma SpacesByCode(c: char)
    ensures IsSpace(c) <==>
            var n := c as int;
            || 9 <= n <= 13 || n in {32, 160, 5760} || 8192 <= n <= 8202
            || n in {8232, 8233, 8239, 8287, 12288, 65279}
  {
  }
}
