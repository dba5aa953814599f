/** Community lists as text: well-known names, "as:value" numbers, and reading them back. */
module CommunityText {
  import opened Options
  import opened Ordering
  import opened Text
  import opened Wire
  import opened Communities

  const INTERNET := 0
  const NO_EXPORT := 0xFFFF_FF01
  const NO_ADVERTISE := 0xFFFF_FF02
  const LOCAL_AS := 0xFFFF_FF03

  function Keyword(v: int): string {
    if v == INTERNET then "internet"
    else if v == NO_EXPORT then "no-export"
    else if v == NO_ADVERTISE then "no-advertise"
    else if v == LOCAL_AS then "local-AS"
    else ""
  }

  function PrintValue(v: int): string
    requires IsU32(v)
  {
    if Keyword(v) != "" then Keyword(v) else Digits(v / 65536) + ":" + Digits(v % 65536)
  }

  function PrintList(l: seq<int>): string
    requires AllU32(l)
  {
    if l == [] then ""
    else if |l| == 1 then PrintValue(l[0])
    else PrintValue(l[0]) + " " + PrintList(l[1..])
  }

  /** The room set aside for a value with the blank before it. */
  function Room(v: int): nat {
    if Keyword(v) != "" then 1 + |Keyword(v)| else 12
  }

  function RoomForAll(l: seq<int>): nat { if l == [] then 0 else Room(l[0]) + RoomForAll(l[1..]) }

  lemma ValueFits(v: int)
    requires IsU32(v)
    ensures 1 <= |PrintValue(v)| && |PrintValue(v)| + 1 <= Room(v)
  {
    assert Pow10(5) == 100000;
    DigitsLength(v / 65536, 5);
    DigitsLength(v % 65536, 5);
  }

  // ----- reading

  predicate IsSpace(c: char) {
    c == ' ' || c == '\t' || c == '\n' || c == '\r' || c == 11 as char || c == 12 as char
  }

  predicate IsAlpha(c: char) { 'a' <= c <= 'z' || 'A' <= c <= 'Z' }

  predicate InNumber(c: char) { IsDigit(c) || c == ':' }

  predicate StartsWith(s: string, k: string) { |k| <= |s| && s[..|k|] == k }

  /** The well-known value named at the start of the text. */
  function NamedValue(s: string): Option<int> {
    if StartsWith(s, "internet") then Some(INTERNET)
    else if StartsWith(s, "no-export") then Some(NO_EXPORT)
    else if StartsWith(s, "no-advertise") then Some(NO_ADVERTISE)
    else if StartsWith(s, "local-AS") then Some(LOCAL_AS)
    else None
  }

  /** How many characters of a number the text starts with. */
  function NumberLength(s: string): (n: nat)
    ensures n <= |s|
    ensures forall i :: 0 <= i < n ==> InNumber(s[i])
    ensures n < |s| ==> !InNumber(s[n])
  {
    if s == "" || !InNumber(s[0]) then 0 else 1 + NumberLength(s[1..])
  }

  /** The value of a run of digits and colons: at most one colon, and digits after it. */
  function NumberValue(run: string): (r: Option<int>)
    requires forall i :: 0 <= i < |run| ==> InNumber(run[i])
    ensures r.Some? ==> IsU32(r.value)
  {
    var c := Leading(run);
    if c == |run| then if run == "" then None else Some(Value(run))
    else
      var low := run[c + 1..];
      if Leading(low) < |low| || low == "" then None
      else Some((Value(run[..c]) * 65536 % 0x1_0000_0000 + Value(low)) % 0x1_0000_0000)
  }

  /** The values named in a text, if all of it can be read. */
  function ReadAll(s: string): (r: Option<seq<int>>)
  {
    if s == "" then Some([])
    else if IsSpace(s[0]) then ReadAll(s[1..])
    else if IsAlpha(s[0]) then
      match NamedValue(s)
      case None => None
      case Some(v) => Join([v], ReadAll(s[|Keyword(v)|..]))
    else if IsDigit(s[0]) then
      var n := NumberLength(s);
      match NumberValue(s[..n])
      case None => None
      case Some(v) => Join([v], ReadAll(s[n..]))
    else None
  }

  /** The list a text stands for.  The loop meets the end of the text with the last token still
      in hand and adds its value a second time, which sorting out repeats then undoes. */
  function ParseList(s: string): Option<seq<int>> {
    match ReadAll(s)
    case None => None
    case Some(vs) => if vs == [] then None else Some(SortUniq(vs + [vs[|vs| - 1]]))
  }

  // ----- reading back what was printed

  predicate Stops(rest: string) { rest == "" || !InNumber(rest[0]) }

  lemma {:induction false} NumberLengthOf(run: string, rest: string)
    requires (forall i :: 0 <= i < |run| ==> InNumber(run[i])) && Stops(rest)
    ensures NumberLength(run + rest) == |run|
    decreases |run|
  {
    if run == "" {
      assert run + rest == rest;
    } else {
      assert (run + rest)[1..] == run[1..] + rest;
      NumberLengthOf(run[1..], rest);
    }
  }

  lemma Halves(v: int)
    requires IsU32(v)
    ensures ((v / 65536) * 65536 % 0x1_0000_0000 + v % 65536) % 0x1_0000_0000 == v
    ensures IsU32(v / 65536) && IsU32(v % 65536)
  {
  }

  lemma NumberReads(v: int)
    requires IsU32(v)
    ensures var run := Digits(v / 65536) + ":" + Digits(v % 65536);
      (forall i :: 0 <= i < |run| ==> InNumber(run[i])) && NumberValue(run) == Some(v)
  {
    hide Digits, Value;
    var high, low := Digits(v / 65536), Digits(v % 65536);
    var run := high + ":" + low;
    Halves(v);
    ValueOfDigits(v / 65536);
    ValueOfDigits(v % 65536);
    assert run == high + (":" + low);
    LeadingOf(high, ":" + low);
    LeadingIs(low, |low|);
    assert run[..|high|] == high && run[|high| + 1..] == low;
  }

  lemma ReadNumberFirst(v: int, rest: string)
    requires IsU32(v) && Stops(rest)
    ensures ReadAll(Digits(v / 65536) + ":" + Digits(v % 65536) + rest) == Join([v], ReadAll(rest))
  {
    var run := Digits(v / 65536) + ":" + Digits(v % 65536);
    var s := run + rest;
    NumberReads(v);
    NumberLengthOf(run, rest);
    assert s[0] == Digits(v / 65536)[0] && IsDigit(s[0]);
    assert s[..|run|] == run && s[|run|..] == rest;
  }

  lemma ReadKeywordFirst(v: int, rest: string)
    requires Keyword(v) != ""
    ensures ReadAll(Keyword(v) + rest) == Join([v], ReadAll(rest))
  {
    var k := Keyword(v);
    var s := k + rest;
    assert s[..|k|] == k && s[|k|..] == rest && s[0] == k[0];
    assert s[3] == k[3];
    if StartsWith(s, "internet") { assert s[..8][0] == 'i'; }
    if StartsWith(s, "no-export") { assert s[..9][3] == 'e'; }
    assert NamedValue(s) == Some(v);
  }

  lemma ReadValueFirst(v: int, rest: string)
    requires IsU32(v) && Stops(rest)
    ensures ReadAll(PrintValue(v) + rest) == Join([v], ReadAll(rest))
  {
    hide ReadAll;
    if Keyword(v) != "" {
      ReadKeywordFirst(v, rest);
    } else {
      ReadNumberFirst(v, rest);
    }
  }

  lemma ReadBlank(rest: string)
    ensures ReadAll(" " + rest) == ReadAll(rest)
  {
    assert (" " + rest)[1..] == rest;
  }

  lemma {:induction false} ReadsBack(l: seq<int>)
    requires AllU32(l)
    ensures ReadAll(PrintList(l)) == Some(l)
    decreases |l|
  {
    if l != [] {
      assert IsU32(l[0]) && AllU32(l[1..]);
      ReadsBack(l[1..]);
      assert [l[0]] + l[1..] == l;
      if |l| == 1 {
        assert l[1..] == [] && PrintValue(l[0]) + "" == PrintValue(l[0]);
        ReadValueFirst(l[0], "");
      } else {
        var rest := PrintList(l[1..]);
        assert PrintList(l) == PrintValue(l[0]) + (" " + rest);
        hide ReadAll, PrintValue;
        ReadValueFirst(l[0], " " + rest);
        ReadBlank(rest);
      }
    }
  }

  /** Printing and reading back gives the canonical form of any list but the empty one, and so
      the list itself exactly if it is canonical and not empty. */
  lemma ListRoundTrip(l: seq<int>)
    requires AllU32(l)
    ensures ParseList(PrintList(l)) == if l == [] then None else Some(SortUniq(l))
    ensures ParseList(PrintList(l)) == Some(l) <==> l != [] && StrictlyAscending(l)
  {
    ReadsBack(l);
    if l != [] {
      var twice := l + [l[|l| - 1]];
      assert Elements(twice) == Elements(l);
      SortUniqCanonical(twice, l);
      SortUniqLists(l);
      if StrictlyAscending(l) { SortUniqFixed(l); }
    }
  }

  // ----- the printer, the tokeniser and the reader

  lemma {:induction false} RoomSplit(l: seq<int>, i: nat)
    requires i < |l|
    ensures RoomForAll(l[..i + 1]) == RoomForAll(l[..i]) + Room(l[i])
    decreases i
  {
    hide Room;
    if i == 0 {
      assert l[..1] == [l[0]] && l[..1][1..] == [] && l[..0] == [];
    } else {
      RoomSplit(l[1..], i - 1);
      assert l[..i + 1][1..] == l[1..][..i] && l[..i][1..] == l[1..][..i - 1];
    }
  }

  lemma {:induction false} PrintSnoc(l: seq<int>, v: int)
    requires AllU32(l) && IsU32(v)
    ensures AllU32(l + [v])
    ensures PrintList(l + [v]) == if l == [] then PrintValue(v) else PrintList(l) + " " + PrintValue(v)
    decreases |l|
  {
    hide PrintValue;
    if l == [] {
      assert l + [v] == [v];
    } else {
      assert AllU32(l[1..]) && IsU32(l[0]);
      PrintSnoc(l[1..], v);
      assert (l + [v])[1..] == l[1..] + [v] && (l + [v])[0] == l[0];
      if |l| > 1 {
        assert PrintValue(l[0]) + " " + (PrintList(l[1..]) + " " + PrintValue(v))
            == PrintList(l) + " " + PrintValue(v);
      } else {
        assert l[1..] == [];
      }
    }
  }

  method EmitValue(buf: array<char>, len: nat, first: bool, v: int) returns (l: nat)
    requires IsU32(v) && len + (if first then 0 else 1) + |PrintValue(v)| < buf.Length
    modifies buf
    ensures l == len + (if first then 0 else 1) + |PrintValue(v)|
    ensures buf[..l] == old(buf[..len]) + (if first then PrintValue(v) else " " + PrintValue(v))
  {
    hide PrintValue;
    l := len;
    if !first {
      l := Emit(buf, l, " ");
    }
    l := Emit(buf, l, PrintValue(v));
    assert old(buf[..len]) + " " + PrintValue(v) == old(buf[..len]) + (" " + PrintValue(v));
  }

  /** The printed part fits its room, with a character to spare after the first value. */
  lemma PrefixFits(l: seq<int>, i: nat)
    requires AllU32(l) && i < |l|
    ensures AllU32(l[..i]) && AllU32(l[..i + 1])
    ensures RoomForAll(l[..i + 1]) == RoomForAll(l[..i]) + Room(l[i]) <= RoomForAll(l)
    ensures 1 <= |PrintValue(l[i])| && |PrintValue(l[i])| + 1 <= Room(l[i])
    ensures PrintList(l[..i + 1]) == PrintList(l[..i]) + (if i == 0 then PrintValue(l[i]) else " " + PrintValue(l[i]))
  {
    hide PrintValue, Room;
    ValueFits(l[i]);
    RoomSplit(l, i);
    RoomWithin(l, i + 1);
    assert l[..i + 1] == l[..i] + [l[i]];
    PrintSnoc(l[..i], l[i]);
    if i > 0 {
      assert PrintList(l[..i]) + " " + PrintValue(l[i]) == PrintList(l[..i]) + (" " + PrintValue(l[i]));
    } else {
      assert "" + PrintValue(l[i]) == PrintValue(l[i]);
    }
  }

  /** The text of a list, in a buffer of exactly the room computed beforehand. */
  method ToText(l: seq<int>) returns (buf: array<char>, len: nat)
    requires AllU32(l)
    ensures buf.Length == if l == [] then 1 else RoomForAll(l)
    ensures len < buf.Length && buf[..len] == PrintList(l) && buf[len] == 0 as char
  {
    if l == [] {
      buf := new char[1](i => 0 as char);
      len := 0;
      return;
    }
    assert l[..0] == [] && RoomForAll([]) == 0 && PrintList([]) == "";
    RoomWithin(l, 0);
    hide PrintValue, Room, PrintList, RoomForAll;
    var size := ComputeRoom(l);
    buf := new char[size](i => 0 as char);
    len := 0;
    var first := true;
    var i := 0;
    while i < |l|
      invariant i <= |l| && fresh(buf) && buf.Length == size && AllU32(l[..i])
      invariant first <==> i == 0
      invariant len + (if i == 0 then 0 else 1) <= RoomForAll(l[..i]) <= size
      invariant buf[..len] == PrintList(l[..i])
    {
      PrefixFits(l, i);
      len := EmitValue(buf, len, first, l[i]);
      first := false;
      i := i + 1;
    }
    assert l[..|l|] == l;
    buf[len] := 0 as char;
  }

  lemma {:induction false} RoomWithin(l: seq<int>, i: nat)
    requires i <= |l|
    ensures RoomForAll(l[..i]) <= RoomForAll(l)
    decreases |l| - i
  {
    hide Room;
    if i < |l| {
      RoomSplit(l, i);
      RoomWithin(l, i + 1);
    } else {
      assert l[..i] == l;
    }
  }

  method ComputeRoom(l: seq<int>) returns (len: nat)
    ensures len == RoomForAll(l)
  {
    len := 0;
    for i := 0 to |l|
      invariant len == RoomForAll(l[..i])
    {
      RoomSplit(l, i);
      len := len + Room(l[i]);
    }
    assert l[..|l|] == l;
  }

  /** What the loop over a number knows after `q` characters: before the colon the low part is
      all there is; after it, at `c`, the part before has become the high half. */
  ghost predicate Read(run: string, q: nat, sep: bool, c: nat, digit: bool, high: nat, low: nat) {
    && q <= |run|
    && if !sep then
         (forall i :: 0 <= i < q ==> IsDigit(run[i])) && low == Value(run[..q]) && high == 0 && (digit <==> q > 0)
       else
         && c < q && (forall i :: 0 <= i < c ==> IsDigit(run[i])) && run[c] == ':'
         && (forall i :: c < i < q ==> IsDigit(run[i]))
         && high == Value(run[..c]) * 65536 % 0x1_0000_0000 && low == Value(run[c + 1..q])
         && (digit <==> c + 1 < q)
  }

  lemma ReadColon(run: string, q: nat, c: nat, digit: bool, high: nat, low: nat)
    requires Read(run, q, false, c, digit, high, low) && q < |run| && run[q] == ':'
    ensures Read(run, q + 1, true, q, false, low * 65536 % 0x1_0000_0000, 0)
  {
    assert run[q + 1..q + 1] == "";
  }

  lemma ReadDigit(run: string, q: nat, sep: bool, c: nat, digit: bool, high: nat, low: nat)
    requires Read(run, q, sep, c, digit, high, low) && q < |run| && IsDigit(run[q])
    ensures Read(run, q + 1, sep, c, true, high, (low * 10 % 0x1_0000_0000 + DigitOf(run[q])) % 0x1_0000_0000)
  {
    WrapsOnce(low, DigitOf(run[q]));
    if sep {
      var lows := run[c + 1..q + 1];
      assert lows[..|lows| - 1] == run[c + 1..q] && lows[|lows| - 1] == run[q];
    } else {
      assert run[..q + 1][..q] == run[..q];
    }
  }

  lemma ReadWhole(run: string, sep: bool, c: nat, digit: bool, high: nat, low: nat)
    requires Read(run, |run|, sep, c, digit, high, low) && run != "" && forall i :: 0 <= i < |run| ==> InNumber(run[i])
    ensures NumberValue(run) == if digit then Some((high + low) % 0x1_0000_0000) else None
  {
    hide Value;
    if sep {
      LeadingIs(run, c);
      var lows := run[c + 1..];
      assert lows == run[c + 1..|run|];
      assert forall i :: 0 <= i < |lows| ==> lows[i] == run[c + 1 + i];
      LeadingIs(lows, |lows|);
    } else {
      LeadingIs(run, |run|);
      assert run[..|run|] == run;
    }
  }

  lemma ReadTwoColons(run: string, q: nat, c: nat, digit: bool, high: nat, low: nat)
    requires Read(run, q, true, c, digit, high, low) && q < |run| && run[q] == ':'
    requires forall i :: 0 <= i < |run| ==> InNumber(run[i])
    ensures NumberValue(run) == None
  {
    hide Value;
    LeadingIs(run, c);
    var lows := run[c + 1..];
    assert forall i :: 0 <= i < |lows| ==> lows[i] == run[c + 1 + i];
    LeadingIs(lows, q - c - 1);
  }

  lemma NumberWindow(s: string, start: nat)
    requires start < |s| && IsDigit(s[start])
    ensures var n := NumberLength(s[start..]);
      && 0 < n && start + n <= |s|
      && (forall i :: 0 <= i < n ==> s[start..][..n][i] == s[start + i] && InNumber(s[start + i]))
      && (start + n < |s| ==> !InNumber(s[start + n]))
      && Read(s[start..][..n], 0, false, 0, false, 0, 0)
  {
    var rest := s[start..];
    var n := NumberLength(rest);
    assert n < |rest| ==> rest[n] == s[start + n];
    assert rest[0] == s[start];
    assert forall i :: 0 <= i < n ==> InNumber(rest[i]) && rest[i] == s[start + i];
  }

  datatype Scan = AtEnd | Found(value: int) | Unknown

  /** Reads a number: high half, colon, low half, in 32-bit arithmetic. */
  method ReadNumber(s: string, start: nat) returns (v: Option<int>, p: nat)
    requires start < |s| && IsDigit(s[start])
    ensures start < p <= |s|
    ensures v.Some? ==> p - start == NumberLength(s[start..])
    ensures v == NumberValue(s[start..][..NumberLength(s[start..])])
  {
    hide Read, Value, NumberValue, NumberLength;
    NumberWindow(s, start);
    ghost var n := NumberLength(s[start..]);
    ghost var run := s[start..][..n];
    var high, low, sep, digit := 0, 0, false, false;
    ghost var c: nat := 0;
    p := start;
    while p < |s| && InNumber(s[p])
      invariant start <= p <= start + n && high >= 0 && low >= 0
      invariant Read(run, p - start, sep, c, digit, high, low)
      decreases |s| - p
    {
      ghost var q: nat := p - start;
      assert q < n && run[q] == s[p];
      if s[p] == ':' {
        if sep {
          ReadTwoColons(run, q, c, digit, high, low);
          return None, p + 1;
        }
        ReadColon(run, q, c, digit, high, low);
        sep, digit := true, false;
        high, low := low * 65536 % 0x1_0000_0000, 0;
        c := q;
      } else {
        ReadDigit(run, q, sep, c, digit, high, low);
        digit := true;
        low := low * 10 % 0x1_0000_0000;
        low := (low + DigitOf(s[p])) % 0x1_0000_0000;
      }
      p := p + 1;
    }
    assert p - start == n;
    ReadWhole(run, sep, c, digit, high, low);
    if !digit {
      return None, p;
    }
    return Some((high + low) % 0x1_0000_0000), p;
  }

  /** The next token of a text. */
  method GetToken(s: string, start: nat) returns (r: Scan, p: nat)
    requires start <= |s|
    ensures start <= p <= |s|
    ensures match r
            case AtEnd => ReadAll(s[start..]) == Some([])
            case Unknown => ReadAll(s[start..]) == None
            case Found(v) => start < p && ReadAll(s[start..]) == Join([v], ReadAll(s[p..]))
  {
    p := SkipSpace(s, start);
    if p == |s| {
      return AtEnd, p;
    }
    var here := p;
    ghost var ahead := s[here..];
    assert ahead[0] == s[here];
    if IsAlpha(s[here]) {
      var named := NamedValue(s[here..]);
      if named.None? {
        return Unknown, p;
      }
      p := here + |Keyword(named.value)|;
      assert ahead[|Keyword(named.value)|..] == s[p..];
      return Found(named.value), p;
    }
    if IsDigit(s[here]) {
      var v;
      v, p := ReadNumber(s, here);
      if v.None? {
        return Unknown, p;
      }
      assert ahead[p - here..] == s[p..];
      return Found(v.value), p;
    }
    return Unknown, p;
  }

  method SkipSpace(s: string, start: nat) returns (p: nat)
    requires start <= |s|
    ensures start <= p <= |s| && ReadAll(s[p..]) == ReadAll(s[start..])
    ensures p < |s| ==> !IsSpace(s[p])
  {
    hide ReadAll;
    p := start;
    while p < |s| && IsSpace(s[p])
      invariant start <= p <= |s| && ReadAll(s[p..]) == ReadAll(s[start..])
    {
      SpaceSkips(s, p);
      p := p + 1;
    }
  }

  lemma SpaceSkips(s: string, p: nat)
    requires p < |s| && IsSpace(s[p])
    ensures ReadAll(s[p..]) == ReadAll(s[p + 1..])
  {
    assert s[p..][0] == s[p] && s[p..][1..] == s[p + 1..];
  }

  /** The list a text stands for.  Each round adds the value last read, also the round that
      meets the end of the text. */
  method ParseText(str: string) returns (r: Option<seq<int>>)
    ensures r == ParseList(str)
  {
    hide ReadAll, Join, SortUniq;
    var vs: seq<int>, last: Option<int>, p := [], None, 0;
    assert str[0..] == str;
    JoinNothing(ReadAll(str));
    while true
      invariant p <= |str|
      invariant Join(vs, ReadAll(str[p..])) == ReadAll(str)
      invariant last == if vs == [] then None else Some(vs[|vs| - 1])
      decreases |str| - p
    {
      var scan, next := GetToken(str, p);
      match scan {
        case Unknown =>
          JoinEnds(vs);
          return None;
        case Found(v) =>
          JoinAssociates(vs, [v], ReadAll(str[next..]));
          vs, last, p := vs + [v], Some(v), next;
        case AtEnd =>
          JoinEnds(vs);
          if last.None? {
            return None;
          }
          var sorted := UniqSort(vs + [last.value]);
          return Some(sorted);
      }
    }
  }

  lemma JoinEnds(vs: seq<int>)
    ensures Join(vs, Some([])) == Some(vs) && Join(vs, None) == None
  {
    assert vs + [] == vs;
  }
}
