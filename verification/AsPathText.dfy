/** AS paths as text: printing into a buffer that grows by a computed bound, the tokeniser and
    the parser, and what printing and parsing give back. */
module AsPathText {
  import opened Options
  import opened AsPath
  import opened Text
  import opened Wire

  // ----- printing

  function Separator(k: SegKind): char { if IsSetKind(k) then ',' else ' ' }

  function Opening(k: SegKind): string {
    match k
    case AsSequence => ""
    case AsSet => "{"
    case ConfedSet => "["
    case ConfedSequence => "("
  }

  function Closing(k: SegKind): string {
    match k
    case AsSequence => ""
    case AsSet => "}"
    case ConfedSet => "]"
    case ConfedSequence => ")"
  }

  function PrintAsns(asns: seq<int>, sep: char): string
    requires AllU32(asns)
  {
    if asns == [] then ""
    else if |asns| == 1 then Digits(asns[0])
    else Digits(asns[0]) + [sep] + PrintAsns(asns[1..], sep)
  }

  function PrintSegment(s: Segment): string
    requires AllU32(s.asns)
  {
    Opening(s.kind) + PrintAsns(s.asns, Separator(s.kind)) + Closing(s.kind)
  }

  function Print(p: Path): string
    requires InRange(p)
  {
    if p == [] then ""
    else if |p| == 1 then PrintSegment(p[0])
    else PrintSegment(p[0]) + " " + Print(p[1..])
  }

  // ----- tokens

  datatype Token = AsVal(asn: nat) | Open(kind: SegKind) | Close

  predicate IsSeparator(c: char) {
    c == ' ' || c == '\t' || c == '\n' || c == '\r' || c == 11 as char || c == 12 as char || c == ','
  }

  function DelimiterToken(c: char): Option<Token> {
    if c == '{' then Some(Open(AsSet))
    else if c == '[' then Some(Open(ConfedSet))
    else if c == '(' then Some(Open(ConfedSequence))
    else if c == '}' || c == ')' || c == ']' then Some(Close)
    else None
  }

  /** The tokens of a text, if it has no unknown character. */
  function Lex(s: string): Option<seq<Token>> {
    if s == "" then Some([])
    else if IsSeparator(s[0]) then Lex(s[1..])
    else if DelimiterToken(s[0]).Some? then Join([DelimiterToken(s[0]).value], Lex(s[1..]))
    else if IsDigit(s[0]) then
      var n := Leading(s);
      Join([AsVal(Value(s[..n]))], Lex(s[n..]))
    else None
  }

  // ----- parsing

  /** Builds the path: a number opens a plain sequence if one is needed, else it goes to the
      last segment. */
  function Build(ts: seq<Token>, path: Path, need: bool): Path
    decreases |ts|
  {
    if ts == [] then path
    else match ts[0]
      case AsVal(n) => Build(ts[1..], AddAsn(if need then path + [Segment(AsSequence, [])] else path, n), false)
      case Open(k) => Build(ts[1..], path + [Segment(k, [])], false)
      case Close => Build(ts[1..], path, true)
  }

  function AddAsn(path: Path, n: int): Path {
    if path == [] then path
    else
      var last := path[|path| - 1];
      path[|path| - 1 := last.(asns := last.asns + [n])]
  }

  function ParseText(s: string): Option<Path> {
    match Lex(s)
    case None => None
    case Some(ts) => Some(Build(ts, [], true))
  }

  // ----- what the text of a path says

  function Values(asns: seq<int>): (ts: seq<Token>)
    requires AllU32(asns)
    ensures |ts| == |asns| && forall i :: 0 <= i < |asns| ==> ts[i] == AsVal(asns[i])
  {
    seq(|asns|, i requires 0 <= i < |asns| => AsVal(asns[i]))
  }

  function SegmentTokens(s: Segment): seq<Token>
    requires AllU32(s.asns)
  {
    if s.kind.AsSequence? then Values(s.asns) else [Open(s.kind)] + Values(s.asns) + [Close]
  }

  function TokensOf(p: Path): seq<Token>
    requires InRange(p)
  {
    if p == [] then [] else SegmentTokens(p[0]) + TokensOf(p[1..])
  }

  /** A text cannot show an empty plain sequence, nor where one stops and the next begins. */
  function Merged(p: Path): Path {
    if p == [] then []
    else if p[0].kind.AsSequence? && p[0].asns == [] then Merged(p[1..])
    else Attach(p[0], Merged(p[1..]))
  }

  predicate Showable(p: Path) {
    && (forall i :: 0 <= i < |p| ==> p[i].kind.AsSequence? ==> p[i].asns != [])
    && (forall i :: 0 <= i < |p| - 1 ==> !(p[i].kind.AsSequence? && p[i + 1].kind.AsSequence?))
  }

  predicate StopsNumber(rest: string) { rest == "" || !IsDigit(rest[0]) }

  lemma LexNumber(n: nat, rest: string)
    requires IsU32(n) && StopsNumber(rest)
    ensures Lex(Digits(n) + rest) == Join([AsVal(n)], Lex(rest))
  {
    var ds := Digits(n);
    var s := ds + rest;
    LeadingOf(ds, rest);
    ValueOfDigits(n);
    assert s[0] == ds[0] && IsDigit(s[0]);
    assert s[..|ds|] == ds && s[|ds|..] == rest;
  }

  lemma LexSkips(c: char, rest: string)
    requires IsSeparator(c)
    ensures Lex([c] + rest) == Lex(rest)
  {
    assert ([c] + rest)[1..] == rest;
  }

  lemma LexDelimiter(c: char, rest: string)
    requires DelimiterToken(c).Some?
    ensures Lex([c] + rest) == Join([DelimiterToken(c).value], Lex(rest))
  {
    assert ([c] + rest)[1..] == rest;
  }

  lemma {:induction false} LexAsns(asns: seq<int>, sep: char, rest: string)
    requires AllU32(asns) && IsSeparator(sep) && StopsNumber(rest)
    ensures Lex(PrintAsns(asns, sep) + rest) == Join(Values(asns), Lex(rest))
    decreases |asns|
  {
    hide Lex, Digits, Join;
    if asns == [] {
      assert PrintAsns(asns, sep) + rest == rest;
      JoinNothing(Lex(rest));
    } else if |asns| == 1 {
      LexNumber(asns[0], rest);
      assert Values(asns) == [AsVal(asns[0])];
    } else {
      var tail := PrintAsns(asns[1..], sep) + rest;
      assert PrintAsns(asns, sep) + rest == Digits(asns[0]) + ([sep] + tail);
      LexNumber(asns[0], [sep] + tail);
      LexSkips(sep, tail);
      LexAsns(asns[1..], sep, rest);
      JoinAssociates([AsVal(asns[0])], Values(asns[1..]), Lex(rest));
      assert [AsVal(asns[0])] + Values(asns[1..]) == Values(asns);
    }
  }

  lemma LexSegment(s: Segment, rest: string)
    requires AllU32(s.asns) && StopsNumber(rest)
    ensures Lex(PrintSegment(s) + rest) == Join(SegmentTokens(s), Lex(rest))
  {
    hide Lex, PrintAsns, Join;
    var sep := Separator(s.kind);
    var body := PrintAsns(s.asns, sep);
    if s.kind.AsSequence? {
      assert PrintSegment(s) + rest == body + rest;
      LexAsns(s.asns, sep, rest);
    } else {
      var open, close := Opening(s.kind)[0], Closing(s.kind)[0];
      assert Opening(s.kind) == [open] && Closing(s.kind) == [close];
      assert PrintSegment(s) + rest == [open] + (body + ([close] + rest));
      LexDelimiter(open, body + ([close] + rest));
      LexAsns(s.asns, sep, [close] + rest);
      LexDelimiter(close, rest);
      JoinAssociates(Values(s.asns), [Close], Lex(rest));
      JoinAssociates([Open(s.kind)], Values(s.asns) + [Close], Lex(rest));
      assert [Open(s.kind)] + (Values(s.asns) + [Close]) == SegmentTokens(s);
    }
  }

  lemma {:induction false} LexPath(p: Path)
    requires InRange(p)
    ensures Lex(Print(p)) == Some(TokensOf(p))
    decreases |p|
  {
    if p == [] {
    } else {
      assert AllU32(p[0].asns) && InRange(p[1..]);
      hide Lex, PrintSegment, SegmentTokens;
      LexPath(p[1..]);
      if |p| == 1 {
        assert PrintSegment(p[0]) + "" == PrintSegment(p[0]);
        LexSegment(p[0], "");
        assert p[1..] == [];
        LexNothing();
      } else {
        var rest := Print(p[1..]);
        assert Print(p) == PrintSegment(p[0]) + ([' '] + rest);
        LexSegment(p[0], [' '] + rest);
        LexSkips(' ', rest);
      }
    }
  }

  lemma LexNothing()
    ensures Lex("") == Some([])
  {
  }

  // ----- building undoes printing

  lemma AttachTwice(a: seq<int>, b: seq<int>, m: Path)
    ensures Attach(Segment(AsSequence, a), Attach(Segment(AsSequence, b), m)) == Attach(Segment(AsSequence, a + b), m)
  {
    var inner := Attach(Segment(AsSequence, b), m);
    if m != [] && m[0].kind.AsSequence? {
      assert a + (b + m[0].asns) == (a + b) + m[0].asns;
      assert inner[1..] == m[1..];
    } else {
      assert inner[1..] == m;
    }
  }

  /** What has been built so far, continued by the segments `m`. */
  function Continued(path: Path, need: bool, m: Path): Path
    requires !need ==> path != []
  {
    if need then path + m else path[..|path| - 1] + Attach(path[|path| - 1], m)
  }

  /** Numbers for the segment that is open at the end of the path. */
  lemma {:induction false} BuildOpen(asns: seq<int>, front: Path, last: Segment, ts: seq<Token>)
    requires AllU32(asns)
    ensures Build(Values(asns) + ts, front + [last], false)
         == Build(ts, front + [last.(asns := last.asns + asns)], false)
    decreases |asns|
  {
    if asns == [] {
      assert Values(asns) + ts == ts;
      assert last.asns + [] == last.asns;
    } else {
      var all := Values(asns) + ts;
      assert all[0] == AsVal(asns[0]) && all[1..] == Values(asns[1..]) + ts;
      var next := last.(asns := last.asns + [asns[0]]);
      assert AddAsn(front + [last], asns[0]) == front + [next];
      BuildOpen(asns[1..], front, next, ts);
      assert last.asns + [asns[0]] + asns[1..] == last.asns + asns;
    }
  }

  /** Numbers when a plain sequence has to be opened first. */
  lemma BuildFirst(asns: seq<int>, path: Path, ts: seq<Token>)
    requires AllU32(asns) && asns != []
    ensures Build(Values(asns) + ts, path, true) == Build(ts, path + [Segment(AsSequence, asns)], false)
  {
    var all := Values(asns) + ts;
    assert all[0] == AsVal(asns[0]) && all[1..] == Values(asns[1..]) + ts;
    var first := Segment(AsSequence, [asns[0]]);
    assert [] + [asns[0]] == [asns[0]];
    assert AddAsn(path + [Segment(AsSequence, [])], asns[0]) == path + [first];
    BuildOpen(asns[1..], path, first, ts);
    assert [asns[0]] + asns[1..] == asns;
  }

  lemma BuildDelimited(s: Segment, path: Path, need: bool, ts: seq<Token>)
    requires AllU32(s.asns) && !s.kind.AsSequence?
    ensures Build(SegmentTokens(s) + ts, path, need) == Build(ts, path + [s], true)
  {
    var tail := Values(s.asns) + ([Close] + ts);
    var all := SegmentTokens(s) + ts;
    assert all == [Open(s.kind)] + tail;
    assert all[0] == Open(s.kind) && all[1..] == tail;
    BuildOpen(s.asns, path, Segment(s.kind, []), [Close] + ts);
    assert [] + s.asns == s.asns;
    assert ([Close] + ts)[1..] == ts;
  }

  lemma {:induction false} BuildPath(p: Path, path: Path, need: bool)
    requires InRange(p) && (!need ==> path != [] && path[|path| - 1].kind.AsSequence?)
    ensures Build(TokensOf(p), path, need) == Continued(path, need, Merged(p))
    decreases |p|
  {
    if p == [] {
      assert path + [] == path;
      if !need { assert path[..|path| - 1] + [path[|path| - 1]] == path; }
    } else {
      assert AllU32(p[0].asns) && InRange(p[1..]);
      var s, ts, m := p[0], TokensOf(p[1..]), Merged(p[1..]);
      hide Build;
      if !s.kind.AsSequence? {
        BuildDelimited(s, path, need, ts);
        BuildPath(p[1..], path + [s], true);
        ContinuedDelimited(path, need, s, m);
      } else if s.asns == [] {
        assert SegmentTokens(s) + ts == ts;
        BuildPath(p[1..], path, need);
      } else if need {
        BuildFirst(s.asns, path, ts);
        BuildPath(p[1..], path + [s], false);
        assert (path + [s])[..|path|] == path;
      } else {
        var front, last := path[..|path| - 1], path[|path| - 1];
        assert front + [last] == path;
        var more := last.(asns := last.asns + s.asns);
        BuildOpen(s.asns, front, last, ts);
        BuildPath(p[1..], front + [more], false);
        AttachTwice(last.asns, s.asns, m);
        assert (front + [more])[..|front|] == front;
      }
    }
  }

  lemma ContinuedDelimited(path: Path, need: bool, s: Segment, m: Path)
    requires !s.kind.AsSequence? && (!need ==> path != [])
    ensures path + [s] + m == Continued(path, need, Attach(s, m))
  {
    assert path + [s] + m == path + ([s] + m);
    if !need {
      var front, last := path[..|path| - 1], path[|path| - 1];
      assert path + ([s] + m) == front + ([last] + ([s] + m));
    }
  }

  /** Parsing the text of any path gives its plain sequences run together, and nothing else
      changed. */
  lemma ParseOfPrint(p: Path)
    requires InRange(p)
    ensures ParseText(Print(p)) == Some(Merged(p))
  {
    LexPath(p);
    BuildPath(p, [], true);
    assert [] + Merged(p) == Merged(p);
  }

  lemma {:induction false} MergedMeaning(p: Path)
    ensures Meaning(Merged(p)) == Meaning(p)
    decreases |p|
  {
    if p != [] {
      MergedMeaning(p[1..]);
      AttachMeaning(p[0], Merged(p[1..]));
    }
  }

  lemma {:induction false} MergedShort(p: Path)
    ensures |Merged(p)| <= |p|
    ensures |Merged(p)| == |p| ==> Merged(p) == p && Showable(p)
    decreases |p|
  {
    if p != [] {
      MergedShort(p[1..]);
      var m := Merged(p[1..]);
      if |Merged(p)| == |p| {
        assert m == p[1..];
        assert Merged(p) == [p[0]] + p[1..];
        forall i | 0 <= i < |p| - 1 ensures !(p[i].kind.AsSequence? && p[i + 1].kind.AsSequence?) {
          if i > 0 { assert p[i] == p[1..][i - 1] && p[i + 1] == p[1..][i]; }
        }
        forall i | 0 <= i < |p| ensures p[i].kind.AsSequence? ==> p[i].asns != [] {
          if i > 0 { assert p[i] == p[1..][i - 1]; }
        }
      }
    }
  }

  lemma {:induction false} ShowableIsMerged(p: Path)
    requires Showable(p)
    ensures Merged(p) == p
    decreases |p|
  {
    if p != [] {
      assert forall i :: 0 <= i < |p[1..]| ==> p[1..][i] == p[i + 1];
      ShowableIsMerged(p[1..]);
      assert |p| > 1 ==> !(p[0].kind.AsSequence? && p[1].kind.AsSequence?);
    }
  }

  /** A path comes back from its text exactly if it has no empty and no adjacent plain
      sequences; its meaning comes back always. */
  lemma TextRoundTrip(p: Path)
    requires InRange(p)
    ensures ParseText(Print(p)) == Some(p) <==> Showable(p)
    ensures ParseText(Print(p)).Some? && Meaning(ParseText(Print(p)).value) == Meaning(p)
  {
    hide ParseText, Print, Showable;
    ParseOfPrint(p);
    MergedMeaning(p);
    MergedShort(p);
    if Showable(p) { ShowableIsMerged(p); }
  }

  // ----- the printer and its buffer

  const ASN_STR_LEN := 11
  const DEFAULT_LEN := 32

  /** The first `i` numbers of a segment, each followed by the separator unless it is the last. */
  function AsnsUpTo(asns: seq<int>, sep: char, i: nat): (t: string)
    requires AllU32(asns) && i <= |asns|
    ensures |t| <= i * ASN_STR_LEN
    ensures i == |asns| > 0 ==> |t| < i * ASN_STR_LEN
  {
    if i == 0 then ""
    else
      AsnLength(asns[i - 1]);
      AsnsUpTo(asns, sep, i - 1) + Digits(asns[i - 1]) + (if i < |asns| then [sep] else "")
  }

  lemma {:induction false} AsnsSplit(asns: seq<int>, sep: char, i: nat)
    requires AllU32(asns) && i <= |asns|
    ensures AsnsUpTo(asns, sep, i) + PrintAsns(asns[i..], sep) == PrintAsns(asns, sep)
    decreases i
  {
    hide Digits;
    if i == 0 {
      assert asns[0..] == asns;
    } else {
      AsnsSplit(asns, sep, i - 1);
      var rest := asns[i - 1..];
      assert rest[1..] == asns[i..] && rest[0] == asns[i - 1];
      if i < |asns| {
        assert AsnsUpTo(asns, sep, i) + PrintAsns(asns[i..], sep)
            == AsnsUpTo(asns, sep, i - 1) + (Digits(rest[0]) + [sep] + PrintAsns(rest[1..], sep));
      } else {
        assert AsnsUpTo(asns, sep, i) + "" == AsnsUpTo(asns, sep, i - 1) + Digits(rest[0]);
      }
    }
  }

  method EmitAsns(buf: array<char>, len: nat, asns: seq<int>, sep: char) returns (l: nat)
    requires AllU32(asns) && len + |asns| * ASN_STR_LEN < buf.Length
    modifies buf
    ensures len <= l <= len + |asns| * ASN_STR_LEN && l < buf.Length
    ensures buf[..l] == old(buf[..len]) + PrintAsns(asns, sep)
  {
    hide Digits;
    l := len;
    ghost var before := buf[..len];
    for i := 0 to |asns|
      invariant l == len + |AsnsUpTo(asns, sep, i)|
      invariant buf[..l] == before + AsnsUpTo(asns, sep, i)
    {
      AsnLength(asns[i]);
      ghost var done := AsnsUpTo(asns, sep, i);
      l := Emit(buf, l, Digits(asns[i]));
      if i < |asns| - 1 {
        l := Emit(buf, l, [sep]);
        assert before + done + Digits(asns[i]) + [sep] == before + (done + Digits(asns[i]) + [sep]);
      } else {
        assert before + done + Digits(asns[i]) == before + (done + Digits(asns[i]) + "");
      }
    }
    AsnsSplit(asns, sep, |asns|);
    assert asns[|asns|..] == [];
  }

  method EmitSegment(buf: array<char>, len: nat, s: Segment) returns (l: nat)
    requires AllU32(s.asns) && len + |s.asns| * ASN_STR_LEN + 4 <= buf.Length
    modifies buf
    ensures len <= l && l + 1 < buf.Length
    ensures buf[..l] == old(buf[..len]) + PrintSegment(s)
  {
    ghost var before := buf[..len];
    l := len;
    if s.kind != AsSequence {
      l := Emit(buf, l, Opening(s.kind));
    }
    assert buf[..l] == before + Opening(s.kind);
    l := EmitAsns(buf, l, s.asns, Separator(s.kind));
    ghost var body := PrintAsns(s.asns, Separator(s.kind));
    if s.kind != AsSequence {
      l := Emit(buf, l, Closing(s.kind));
    }
    assert buf[..l] == before + Opening(s.kind) + body + Closing(s.kind);
    assert before + Opening(s.kind) + body + Closing(s.kind) == before + PrintSegment(s);
  }

  /** The first `i` segments, each followed by a space unless it is the last. */
  function SegmentsUpTo(p: Path, i: nat): string
    requires InRange(p) && i <= |p|
  {
    if i == 0 then "" else SegmentsUpTo(p, i - 1) + PrintSegment(p[i - 1]) + (if i < |p| then " " else "")
  }

  lemma {:induction false} SegmentsSplit(p: Path, i: nat)
    requires InRange(p) && i <= |p|
    ensures SegmentsUpTo(p, i) + Print(p[i..]) == Print(p)
    decreases i
  {
    hide PrintSegment;
    if i == 0 {
      assert p[0..] == p;
    } else {
      SegmentsSplit(p, i - 1);
      var rest := p[i - 1..];
      assert rest[1..] == p[i..] && rest[0] == p[i - 1];
      if i < |p| {
        assert SegmentsUpTo(p, i) + Print(p[i..])
            == SegmentsUpTo(p, i - 1) + (PrintSegment(rest[0]) + " " + Print(rest[1..]));
      } else {
        assert SegmentsUpTo(p, i) + "" == SegmentsUpTo(p, i - 1) + PrintSegment(rest[0]);
      }
    }
  }

  function CountAsns(p: Path): nat { if p == [] then 0 else |p[0].asns| + CountAsns(p[1..]) }

  /** A larger buffer with the same contents. */
  method Realloc(buf: array<char>, size: nat) returns (grown: array<char>)
    requires buf.Length <= size
    ensures fresh(grown) && grown.Length == size && grown[..buf.Length] == buf[..]
  {
    grown := new char[size](i => 0 as char);
    for i := 0 to buf.Length
      invariant forall k :: 0 <= k < i ==> grown[k] == buf[k]
    {
      grown[i] := buf[i];
    }
  }

  /** The text of a path.  The buffer starts at a guess and is enlarged before a segment if the
      segment's bound does not fit; every piece fits where it is written, and so does the
      terminating zero. */
  method MakeString(p: Path) returns (buf: array<char>, len: nat)
    requires InRange(p)
    ensures fresh(buf)
    ensures len < buf.Length && buf[..len] == Print(p) && buf[len] == 0 as char
  {
    if p == [] {
      buf := new char[1](i => 0 as char);
      len := 0;
      return;
    }
    var size := CountAsns(p) * ASN_STR_LEN + 3;
    if size < DEFAULT_LEN {
      size := DEFAULT_LEN;
    }
    buf := new char[size](i => 0 as char);
    len := 0;
    var i := 0;
    while i < |p|
      invariant i <= |p| && fresh(buf) && len < buf.Length
      invariant buf[..len] == SegmentsUpTo(p, i)
    {
      buf, len := AppendSegment(buf, len, p, i);
      i := i + 1;
    }
    SegmentsSplit(p, |p|);
    assert p[|p|..] == [];
    buf[len] := 0 as char;
  }

  method AppendSegment(buf: array<char>, len: nat, p: Path, i: nat) returns (out: array<char>, l: nat)
    requires InRange(p) && i < |p| && len < buf.Length && buf[..len] == SegmentsUpTo(p, i)
    modifies buf
    ensures out == buf || fresh(out)
    ensures l < out.Length && out[..l] == SegmentsUpTo(p, i + 1)
  {
    out := buf;
    var need := len + |p[i].asns| * ASN_STR_LEN + 4;
    if need > buf.Length {
      out := Realloc(buf, need);
      assert out[..len] == out[..buf.Length][..len] == buf[..len];
    }
    hide PrintSegment;
    l := EmitSegment(out, len, p[i]);
    if i + 1 < |p| {
      l := Emit(out, l, " ");
    } else {
      assert SegmentsUpTo(p, i) + PrintSegment(p[i]) == SegmentsUpTo(p, i) + PrintSegment(p[i]) + "";
    }
  }

  // ----- the tokeniser and the parser

  datatype Scan = AtEnd | Found(token: Token) | Unknown

  method GetToken(s: string, start: nat) returns (r: Scan, p: nat)
    requires start <= |s|
    ensures start <= p <= |s|
    ensures match r
            case AtEnd => Lex(s[start..]) == Some([])
            case Unknown => Lex(s[start..]) == None
            case Found(t) => start < p && Lex(s[start..]) == Join([t], Lex(s[p..]))
  {
    p := SkipSeparators(s, start);
    if p == |s| {
      return AtEnd, p;
    }
    var here := p;
    assert s[here..][0] == s[here] && s[here..][1..] == s[here + 1..];
    var d := DelimiterToken(s[here]);
    if d.Some? {
      return Found(d.value), here + 1;
    }
    if IsDigit(s[here]) {
      var value;
      value, p := ReadNumber(s, here);
      assert s[here..][p - here..] == s[p..] && s[here..][..p - here] == s[here..p];
      return Found(AsVal(value)), p;
    }
    return Unknown, p;
  }

  method SkipSeparators(s: string, start: nat) returns (p: nat)
    requires start <= |s|
    ensures start <= p <= |s| && Lex(s[p..]) == Lex(s[start..])
    ensures p < |s| ==> !IsSeparator(s[p])
  {
    p := start;
    while p < |s| && IsSeparator(s[p])
      invariant start <= p <= |s| && Lex(s[p..]) == Lex(s[start..])
    {
      assert s[p..][0] == s[p] && s[p..][1..] == s[p + 1..];
      p := p + 1;
    }
  }

  /** Reads a number in 32-bit arithmetic. */
  method ReadNumber(s: string, start: nat) returns (value: nat, p: nat)
    requires start < |s| && IsDigit(s[start])
    ensures start < p <= |s| && Leading(s[start..]) == p - start
    ensures value == Value(s[start..][..p - start])
  {
    value := DigitOf(s[start]);
    p := start + 1;
    ghost var rest := s[start..];
    assert rest[..1] == [s[start]] && rest[..1][..0] == "";
    while p < |s| && IsDigit(s[p])
      invariant start < p <= |s|
      invariant forall i :: 0 <= i < p - start ==> IsDigit(rest[i])
      invariant value == Value(rest[..p - start])
    {
      ghost var n := p - start;
      assert rest[n] == s[p] && rest[..n + 1][..n] == rest[..n];
      value := value * 10 % 0x1_0000_0000;
      value := (value + DigitOf(s[p])) % 0x1_0000_0000;
      WrapsOnce(Value(rest[..n]), DigitOf(s[p]));
      p := p + 1;
    }
    LeadingIs(rest, p - start);
  }

  /** The path a text stands for. */
  method ParseString(s: string) returns (r: Option<Path>)
    ensures r == ParseText(s)
  {
    var path: Path, need, p := [], true, 0;
    assert s[0..] == s;
    while true
      invariant p <= |s|
      invariant ParseText(s) == Finish(Lex(s[p..]), path, need)
      decreases |s| - p
    {
      ghost var ahead := Lex(s[p..]);
      var scan, next := GetToken(s, p);
      match scan {
        case AtEnd =>
          return Some(path);
        case Unknown =>
          return None;
        case Found(t) =>
          FinishStep(t, Lex(s[next..]), path, need);
          match t {
            case AsVal(n) =>
              if need {
                path := path + [Segment(AsSequence, [])];
                need := false;
              }
              path := AddAsn(path, n);
            case Open(k) =>
              path := path + [Segment(k, [])];
              need := false;
            case Close =>
              need := true;
          }
          p := next;
      }
    }
  }

  ghost function Finish(o: Option<seq<Token>>, path: Path, need: bool): Option<Path> {
    match o
    case None => None
    case Some(ts) => Some(Build(ts, path, need))
  }

  /** The path and whether a sequence has to be begun, after one token. */
  ghost function AfterToken(t: Token, path: Path, need: bool): (Path, bool) {
    match t
    case AsVal(n) => (AddAsn(if need then path + [Segment(AsSequence, [])] else path, n), false)
    case Open(k) => (path + [Segment(k, [])], false)
    case Close => (path, true)
  }

  lemma FinishStep(t: Token, o: Option<seq<Token>>, path: Path, need: bool)
    ensures Finish(Join([t], o), path, need) == Finish(o, AfterToken(t, path, need).0, AfterToken(t, path, need).1)
  {
    if o.Some? {
      var all := [t] + o.value;
      assert all[0] == t && all[1..] == o.value;
    }
  }
}
