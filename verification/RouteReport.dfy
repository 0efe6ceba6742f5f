/** The list of live routes as JSON text: a plain printer, the bounded-buffer writer of
    `memsroute_get`, and a reader that takes the text apart again. */
module RouteReport {
  import opened CText
  import opened Sequences
  import opened Routing
  import opened Messages

  const HEADER: CString := "{\"active_routes\":{"
  const FOOTER: CString := "}}"

  function PairText(key: RouteKey): CString {
    "\"" + key.input + "\":\"" + key.output + "\""
  }

  /** What the writer adds for the key at position i of its loop. */
  function Entry(i: nat, key: RouteKey): CString {
    if i == 0 then PairText(key) else "," + PairText(key)
  }

  function Entries(keys: seq<RouteKey>): (parts: seq<CString>)
    ensures |parts| == |keys|
  {
    seq(|keys|, i requires 0 <= i < |keys| => Entry(i, keys[i]))
  }

  function Flat(parts: seq<CString>): CString {
    if parts == [] then "" else Flat(parts[..|parts| - 1]) + parts[|parts| - 1]
  }

  function ListText(keys: seq<RouteKey>): CString {
    Flat(Entries(keys)) + FOOTER
  }

  /** The text, without any limit. */
  function Render(keys: seq<RouteKey>): CString {
    HEADER + ListText(keys)
  }

  lemma FlatSnoc(parts: seq<CString>, i: nat)
    requires i < |parts|
    ensures Flat(parts[..i + 1]) == Flat(parts[..i]) + parts[i]
  {
    assert parts[..i + 1][..i] == parts[..i];
  }

  lemma {:induction false} FlatGrows(parts: seq<CString>, i: nat)
    requires i <= |parts|
    ensures |Flat(parts[..i])| <= |Flat(parts)|
    decreases |parts| - i
  {
    if i < |parts| {
      FlatSnoc(parts, i);
      FlatGrows(parts, i + 1);
    } else {
      assert parts[..i] == parts;
    }
  }

  lemma {:induction false} FlatFront(part: CString, rest: seq<CString>)
    ensures Flat([part] + rest) == part + Flat(rest)
  {
    var parts := [part] + rest;
    if rest == [] {
      assert parts[..0] == [];
      assert Flat(parts) == "" + part;
    } else {
      var last := |rest| - 1;
      assert parts[..|parts| - 1] == [part] + rest[..last];
      FlatFront(part, rest[..last]);
      Assoc(part, Flat(rest[..last]), rest[last]);
    }
  }

  // ---------- the writer ----------

  /** `snprintf(buf + at, size - at, text)`: never writes past the buffer, terminates
      what it writes, and returns the length the text would have needed. */
  method SnPrintF(buf: array<char>, at: nat, text: CString) returns (written: nat)
    requires at < buf.Length
    modifies buf
    ensures written == |text|
    ensures buf[..at] == old(buf[..at])
    ensures written < buf.Length - at ==> buf[at..at + written] == text && buf[at + written] == NUL
    ensures written >= buf.Length - at ==> buf[at..] == text[..buf.Length - at - 1] + [NUL]
  {
    var kept := Clip(text, buf.Length - at - 1);
    MemCpy(buf, at, kept);
    buf[at + |kept|] := NUL;
    written := |text|;
  }

  /** One `snprintf` at the end of the text and the check after it. */
  method Append(buf: array<char>, offset: nat, text: CString) returns (ok: bool, end: nat)
    requires offset < buf.Length
    modifies buf
    ensures ok <==> offset + |text| < buf.Length
    ensures end == if ok then offset + |text| else offset
    ensures ok ==> buf[..end] == old(buf[..offset]) + text && buf[end] == NUL
  {
    var written := SnPrintF(buf, offset, text);
    ok := written < buf.Length - offset;
    end := if ok then offset + written else offset;
    if ok {
      assert buf[..end] == buf[..offset] + buf[offset..end];
    }
  }

  method AppendEntry(buf: array<char>, offset: nat, i: nat, key: RouteKey) returns (ok: bool, end: nat)
    requires offset < buf.Length
    modifies buf
    ensures ok <==> offset + |Entry(i, key)| < buf.Length
    ensures ok ==> end == offset + |Entry(i, key)|
    ensures ok ==> buf[..end] == old(buf[..offset]) + Entry(i, key) && buf[end] == NUL
  {
    var text := PairText(key);
    end := offset;
    if i > 0 {
      ok, end := Append(buf, end, ",");
      if !ok {
        return false, end;
      }
      Assoc(old(buf[..offset]), ",", text);
    }
    ok, end := Append(buf, end, text);
  }

  /** The text of a buffer that is known to end at position n. */
  function TextOfPrefix(buf: string, n: nat): (t: CString)
    requires n < |buf| && buf[n] == NUL && NUL !in buf[..n]
    ensures t == buf[..n]
  {
    IndexOfIs(buf, NUL, n);
    TextOf(buf)
  }

  /** The writer as coded, with its three overflow exits. It yields the plain rendering
      when that fits the payload array with its terminator and reports an overflow
      otherwise; every write stays inside the array, and so does the offset. */
  method WriteReport(keys: seq<RouteKey>) returns (text: Option<CString>)
    ensures text == if |Render(keys)| < MAX_PAYLOAD_LEN then Some(Render(keys)) else None
  {
    ghost var parts := Entries(keys);
    var buf := new char[MAX_PAYLOAD_LEN];
    var ok: bool, offset: nat := Append(buf, 0, HEADER);
    var i := 0;
    while i < |keys|
      invariant 0 <= i <= |keys|
      invariant offset < buf.Length && buf[offset] == NUL
      invariant buf[..offset] == HEADER + Flat(parts[..i])
    {
      FlatSnoc(parts, i);
      FlatGrows(parts, i + 1);
      Assoc(HEADER, Flat(parts[..i]), parts[i]);
      ok, offset := AppendEntry(buf, offset, i, keys[i]);
      if !ok {
        return None;
      }
      i := i + 1;
    }
    assert parts[..i] == parts;
    Assoc(HEADER, Flat(parts), FOOTER);
    ok, offset := Append(buf, offset, FOOTER);
    if !ok {
      return None;
    }
    text := Some(TextOfPrefix(buf[..], offset));
  }

  // ---------- the reader ----------

  ghost predicate QuoteFree(keys: seq<RouteKey>) {
    forall i :: 0 <= i < |keys| ==> '\"' !in keys[i].input && '\"' !in keys[i].output
  }

  /** One quoted name at the front of s, and what follows its closing quote. */
  function ReadName(s: CString): (r: Option<(CString, CString)>)
    ensures r.Some? ==> '\"' !in r.value.0 && |r.value.1| < |s|
  {
    if s == "" || s[0] != '\"' then None
    else
      var q := IndexOf(s[1..], '\"');
      if 1 + q == |s| then None else Some((s[1..][..q], s[2 + q..]))
  }

  /** One pair at the front of s, and what follows it. */
  function ReadPair(s: CString): (r: Option<(RouteKey, CString)>)
    ensures r.Some? ==> '\"' !in r.value.0.input && '\"' !in r.value.0.output && |r.value.1| < |s|
  {
    match ReadName(s)
    case None => None
    case Some((input, rest)) =>
      if rest == "" || rest[0] != ':' then None
      else
        match ReadName(rest[1..])
        case None => None
        case Some((output, end)) => Some((RouteKey(input, output), end))
  }

  /** Further pairs, each after a comma, up to the footer. */
  function ReadMore(s: CString): (r: Option<seq<RouteKey>>)
    ensures r.Some? ==> QuoteFree(r.value)
    decreases |s|
  {
    if s == FOOTER then Some([])
    else if s == "" || s[0] != ',' then None
    else
      match ReadPair(s[1..])
      case None => None
      case Some((key, rest)) =>
        match ReadMore(rest)
        case None => None
        case Some(keys) => Some([key] + keys)
  }

  function ReadList(s: CString): (r: Option<seq<RouteKey>>)
    ensures r.Some? ==> QuoteFree(r.value)
  {
    if s == FOOTER then Some([])
    else
      match ReadPair(s)
      case None => None
      case Some((key, rest)) =>
        match ReadMore(rest)
        case None => None
        case Some(keys) => Some([key] + keys)
  }

  /** Whatever the reader reads, of any text, has no quote in a name. */
  function ReadReport(s: CString): (r: Option<seq<RouteKey>>)
    ensures r.Some? ==> QuoteFree(r.value)
  {
    if HEADER <= s then ReadList(s[|HEADER|..]) else None
  }

  lemma ReadNameBack(name: CString, rest: CString)
    requires '\"' !in name
    ensures ReadName("\"" + name + "\"" + rest) == Some((name, rest))
  {
    var s := "\"" + name + "\"" + rest;
    assert s[1..] == name + "\"" + rest;
    assert s[1..][..|name|] == name;
    IndexOfIs(s[1..], '\"', |name|);
    assert s[2 + |name|..] == rest;
  }

  function PairThen(key: RouteKey, more: CString): CString {
    PairText(key) + more
  }

  function CommaThen(s: CString): (r: CString)
    ensures r != "" && r[0] == ',' && r[1..] == s
  {
    "," + s
  }

  lemma ReadPairBack(key: RouteKey, rest: CString)
    requires '\"' !in key.input && '\"' !in key.output
    ensures ReadPair(PairThen(key, rest)) == Some((key, rest))
  {
    var second: CString := "\"" + key.output + "\"" + rest;
    var afterInput: CString := ":" + second;
    assert PairThen(key, rest) == "\"" + key.input + "\"" + afterInput;
    ReadNameBack(key.input, afterInput);
    assert afterInput[1..] == second;
    ReadNameBack(key.output, rest);
  }

  /** The text of further pairs and the footer. */
  function MoreText(keys: seq<RouteKey>): CString {
    if keys == [] then FOOTER else CommaThen(PairThen(keys[0], MoreText(keys[1..])))
  }

  lemma {:induction false} FlatIsMoreText(keys: seq<RouteKey>, i: nat)
    requires 0 < i <= |keys|
    ensures Flat(Entries(keys)[i..]) + FOOTER == MoreText(keys[i..])
    decreases |keys| - i
  {
    var parts := Entries(keys);
    if i < |keys| {
      FlatIsMoreText(keys, i + 1);
      assert parts[i..] == [parts[i]] + parts[i + 1..];
      FlatFront(parts[i], parts[i + 1..]);
      assert keys[i..][1..] == keys[i + 1..];
      Assoc(parts[i], Flat(parts[i + 1..]), FOOTER);
      Assoc(",", PairText(keys[i]), MoreText(keys[i + 1..]));
    }
  }

  lemma RenderFront(keys: seq<RouteKey>)
    requires keys != []
    ensures ListText(keys) == PairThen(keys[0], MoreText(keys[1..]))
  {
    var parts := Entries(keys);
    assert parts == [parts[0]] + parts[1..];
    FlatFront(parts[0], parts[1..]);
    FlatIsMoreText(keys, 1);
    Assoc(parts[0], Flat(parts[1..]), FOOTER);
  }

  lemma ReadMoreUnfolds(s: CString, key: RouteKey, rest: CString)
    requires s != "" && s[0] == ',' && ReadPair(s[1..]) == Some((key, rest)) && ReadMore(rest).Some?
    ensures ReadMore(s) == Some([key] + ReadMore(rest).value)
  {
    assert s[0] != FOOTER[0];
  }

  lemma ReadMoreStep(key: RouteKey, more: CString)
    requires '\"' !in key.input && '\"' !in key.output && ReadMore(more).Some?
    ensures ReadMore(CommaThen(PairThen(key, more))) == Some([key] + ReadMore(more).value)
  {
    ReadPairBack(key, more);
    ReadMoreUnfolds(CommaThen(PairThen(key, more)), key, more);
  }

  lemma MoreTextFront(key: RouteKey, tail: seq<RouteKey>)
    ensures MoreText([key] + tail) == CommaThen(PairThen(key, MoreText(tail)))
  {
    assert ([key] + tail)[1..] == tail;
  }

  lemma {:induction false} ReadMoreBack(keys: seq<RouteKey>)
    requires QuoteFree(keys)
    ensures ReadMore(MoreText(keys)) == Some(keys)
    decreases |keys|
  {
    if keys != [] {
      var key, tail := keys[0], keys[1..];
      assert keys == [key] + tail;
      ReadMoreBack(tail);
      ReadMoreStep(key, MoreText(tail));
      MoreTextFront(key, tail);
    }
  }

  lemma ReadListStep(key: RouteKey, tail: seq<RouteKey>)
    requires '\"' !in key.input && '\"' !in key.output && QuoteFree(tail)
    ensures ReadList(PairThen(key, MoreText(tail))) == Some([key] + tail)
  {
    var s := PairThen(key, MoreText(tail));
    ReadPairBack(key, MoreText(tail));
    ReadMoreBack(tail);
    assert s[0] != FOOTER[0];
  }

  lemma RenderReads(keys: seq<RouteKey>)
    requires QuoteFree(keys)
    ensures ReadReport(Render(keys)) == Some(keys)
  {
    assert Render(keys)[|HEADER|..] == ListText(keys);
    if keys != [] {
      RenderFront(keys);
      ReadListStep(keys[0], keys[1..]);
      assert keys == [keys[0]] + keys[1..];
    }
  }

  /** A reader gets back exactly the listed pairs if and only if no name holds a quote. */
  lemma ReadBack(keys: seq<RouteKey>)
    ensures ReadReport(Render(keys)) == Some(keys) <==> QuoteFree(keys)
  {
    if QuoteFree(keys) {
      RenderReads(keys);
    }
  }

  /** So different lists have different texts. */
  lemma Unambiguous(a: seq<RouteKey>, b: seq<RouteKey>)
    requires QuoteFree(a) && QuoteFree(b) && Render(a) == Render(b)
    ensures a == b
  {
    ReadBack(a);
    ReadBack(b);
  }

  // ---------- lists with the same text ----------

  const COLON: CString := "\":\""

  /** The text of a pair without its outer quotes. */
  function Inner(key: RouteKey): CString {
    key.input + COLON + key.output
  }

  /** A quoted colon stands at position i: the text can be read as a pair divided there. */
  predicate DividesAt(text: CString, i: nat) {
    i + 3 <= |text| && text[i..i + 3] == COLON
  }

  function DividedAt(text: CString, i: nat): RouteKey
    requires DividesAt(text, i)
  {
    RouteKey(text[..i], text[i + 3..])
  }

  lemma DivideInner(key: RouteKey)
    ensures DividesAt(Inner(key), |key.input|) && DividedAt(Inner(key), |key.input|) == key
  {
    var text := Inner(key);
    assert text == key.input + (COLON + key.output);
    assert text[|key.input|..] == COLON + key.output;
    assert text[..|key.input|] == key.input && text[|key.input| + 3..] == key.output;
  }

  lemma InnerDivided(text: CString, i: nat)
    requires DividesAt(text, i)
    ensures Inner(DividedAt(text, i)) == text
  {
    assert text == text[..i] + text[i..i + 3] + text[i + 3..];
  }

  lemma OneText(key: RouteKey)
    ensures ListText([key]) == "\"" + Inner(key) + "\"" + FOOTER
  {
    RenderFront([key]);
    assert [key][1..] == [];
    assert PairText(key) == "\"" + Inner(key) + "\"";
  }

  lemma CancelEnds(x: CString, y: CString, end: CString)
    requires "\"" + x + end == "\"" + y + end
    ensures x == y
  {
    var s := "\"" + x + end;
    assert |x| == |y|;
    assert x == s[1..1 + |x|] && y == ("\"" + y + end)[1..1 + |y|];
  }

  lemma CancelRender(a: seq<RouteKey>, b: seq<RouteKey>)
    ensures Render(a) == Render(b) <==> ListText(a) == ListText(b)
  {
    assert Render(a)[|HEADER|..] == ListText(a) && Render(b)[|HEADER|..] == ListText(b);
  }

  lemma SameTextSameInner(a: RouteKey, b: RouteKey)
    ensures Render([a]) == Render([b]) <==> Inner(a) == Inner(b)
  {
    OneText(a);
    OneText(b);
    CancelRender([a], [b]);
    if ListText([a]) == ListText([b]) {
      Assoc("\"" + Inner(a), "\"", FOOTER);
      Assoc("\"" + Inner(b), "\"", FOOTER);
      CancelEnds(Inner(a), Inner(b), "\"" + FOOTER);
    }
  }

  /** The text of further pairs, without the last quote and the footer. */
  function Further(keys: seq<RouteKey>): CString
    requires keys != []
  {
    if |keys| == 1 then ",\"" + Inner(keys[0]) else "," + PairText(keys[0]) + Further(keys[1..])
  }

  lemma PairIsInner(key: RouteKey)
    ensures PairText(key) == "\"" + Inner(key) + "\""
  {
  }

  lemma LastText(key: RouteKey)
    ensures "," + (PairText(key) + FOOTER) == (",\"" + Inner(key)) + "\"" + FOOTER
  {
    PairIsInner(key);
    Assoc(",", "\"", Inner(key));
    Assoc("," , "\"" + Inner(key), "\"");
    Assoc(",", PairText(key), FOOTER);
  }

  lemma {:induction false} FurtherText(keys: seq<RouteKey>)
    requires keys != []
    ensures MoreText(keys) == Further(keys) + "\"" + FOOTER
  {
    var key, rest := keys[0], keys[1..];
    if rest == [] {
      LastText(key);
    } else {
      FurtherText(rest);
      Assoc(PairText(key), Further(rest), "\"");
      Assoc(PairText(key), Further(rest) + "\"", FOOTER);
      Assoc(",", PairText(key), Further(rest));
      Assoc(",", PairText(key) + Further(rest), "\"");
      Assoc(",", PairText(key) + Further(rest) + "\"", FOOTER);
    }
  }

  lemma ColonBetween(front: CString, back: CString)
    ensures DividesAt(front + COLON + back, |front|)
  {
    assert (front + COLON + back)[..|front| + 3] == front + COLON;
    assert (front + COLON)[|front|..] == COLON;
  }

  /** One pair and what follows, split at the quoted colon of the pair. */
  lemma SplitFirst(name: string, value: string, rest: string)
    ensures "," + ("\"" + name + COLON + value + "\"") + rest == (",\"" + name) + COLON + (value + "\"" + rest)
    ensures ",\"" + (name + COLON + value) == (",\"" + name) + COLON + value
  {
    Assoc(",\"", name + COLON, value);
    Assoc(",\"", name, COLON);
    var pair := "\"" + name + COLON + value;
    Assoc(",", pair, "\"");
    assert "," + pair == (",\"" + name) + COLON + value;
    Assoc((",\"" + name) + COLON + value, "\"", rest);
    Assoc((",\"" + name) + COLON, value, "\"" + rest);
    Assoc(value, "\"", rest);
  }

  lemma FurtherDivides(keys: seq<RouteKey>)
    requires keys != []
    ensures DividesAt(Further(keys), 2 + |keys[0].input|)
  {
    var key, front: CString := keys[0], ",\"" + keys[0].input;
    if |keys| == 1 {
      SplitFirst(key.input, key.output, "");
      ColonBetween(front, key.output);
    } else {
      var rest := Further(keys[1..]);
      SplitFirst(key.input, key.output, rest);
      ColonBetween(front, key.output + "\"" + rest);
    }
  }

  /** One pair whose output spells out all pairs after the first. */
  function Collapsed(keys: seq<RouteKey>): RouteKey
    requires |keys| >= 2
  {
    RouteKey(keys[0].input, keys[0].output + "\"" + Further(keys[1..]))
  }

  lemma Regroup(a: string, b: string, q: string, rest: string, end: string)
    ensures (q + (a + COLON + (b + q + rest)) + q) + end == (q + a + COLON + b + q) + (rest + q + end)
  {
    var left := q + a + COLON;
    Assoc(q, a + COLON, b + q + rest);
    Assoc(q, a, COLON);
    Assoc(left, b + q, rest);
    Assoc(left, b, q);
    var pair := left + b + q;
    assert q + (a + COLON + (b + q + rest)) == pair + rest;
    Assoc(pair, rest, q);
    Assoc(pair, rest + q, end);
  }

  lemma CollapsedText(keys: seq<RouteKey>)
    requires |keys| >= 2
    ensures Render([Collapsed(keys)]) == Render(keys)
  {
    OneText(Collapsed(keys));
    RenderFront(keys);
    FurtherText(keys[1..]);
    Regroup(keys[0].input, keys[0].output, "\"", Further(keys[1..]), FOOTER);
  }

  lemma Shifted(front: CString, rest: CString, i: nat)
    requires DividesAt(rest, i)
    ensures DividesAt(front + rest, |front| + i)
  {
    assert (front + rest)[|front| + i..|front| + i + 3] == rest[i..i + 3];
  }

  lemma CollapsedDivides(keys: seq<RouteKey>)
    requires |keys| >= 2
    ensures DividesAt(Inner(Collapsed(keys)), |keys[0].input| + 3 + |keys[0].output| + 1 + 2 + |keys[1].input|)
  {
    var front: CString := keys[0].input + COLON + keys[0].output + "\"";
    var rest := Further(keys[1..]);
    FurtherDivides(keys[1..]);
    assert Inner(Collapsed(keys)) == front + rest;
    Shifted(front, rest, 2 + |keys[1].input|);
  }

  /** Another list has the same text. */
  ghost predicate HasTwin(keys: seq<RouteKey>) {
    exists other: seq<RouteKey> :: other != keys && Render(other) == Render(keys)
  }

  /** Where a pair can be divided in a second way. */
  predicate DividesTwice(key: RouteKey) {
    exists i :: 0 <= i < |Inner(key)| && i != |key.input| && DividesAt(Inner(key), i)
  }

  lemma OneTwin(key: RouteKey, other: RouteKey)
    requires other != key && Inner(other) == Inner(key)
    ensures DividesTwice(key)
  {
    DivideInner(key);
    DivideInner(other);
    assert DividesAt(Inner(key), |other.input|);
  }

  lemma EmptyHasNoTwin(other: seq<RouteKey>)
    requires other != []
    ensures Render(other) != Render([])
  {
    CancelRender(other, []);
    RenderFront(other);
    assert ListText(other)[0] == '\"';
    assert ListText([]) == FOOTER;
  }

  lemma TwinOfOne(key: RouteKey, other: seq<RouteKey>)
    requires other != [key] && Render(other) == Render([key])
    ensures DividesTwice(key)
  {
    CancelRender(other, [key]);
    OneText(key);
    if other == [] {
      EmptyHasNoTwin([key]);
    } else if |other| == 1 {
      assert other == [other[0]];
      SameTextSameInner(other[0], key);
      OneTwin(key, other[0]);
    } else {
      CollapsedText(other);
      CollapsedDivides(other);
      SameTextSameInner(Collapsed(other), key);
      if Collapsed(other) != key {
        OneTwin(key, Collapsed(other));
      }
    }
  }

  /** Names are not escaped, so a text may stand for several lists: exactly if it is that
      of two pairs or more, which could all be one pair with quotes in its output, or that
      of one pair with a second quoted colon. */
  lemma HasTwinIff(keys: seq<RouteKey>)
    ensures HasTwin(keys) <==> |keys| >= 2 || (|keys| == 1 && DividesTwice(keys[0]))
  {
    if HasTwin(keys) {
      var other :| other != keys && Render(other) == Render(keys);
      if keys == [] {
        EmptyHasNoTwin(other);
      } else if |keys| == 1 {
        assert keys == [keys[0]];
        TwinOfOne(keys[0], other);
      }
    }
    if |keys| >= 2 {
      CollapsedText(keys);
      assert [Collapsed(keys)] != keys;
    } else if |keys| == 1 && DividesTwice(keys[0]) {
      var text := Inner(keys[0]);
      var i :| 0 <= i < |text| && i != |keys[0].input| && DividesAt(text, i);
      InnerDivided(text, i);
      var other := DividedAt(text, i);
      SameTextSameInner(other, keys[0]);
      assert keys == [keys[0]] && [other] != keys;
    }
  }

  /** For example a second pair can be forged by one quoted name, and a quote alone does
      not make a text ambiguous. */
  lemma QuotesMakeAmbiguous(a: RouteKey, b: RouteKey)
    ensures var forged := RouteKey(a.input, a.output + "\",\"" + b.input + "\":\"" + b.output);
            [forged] != [a, b] && Render([forged]) == Render([a, b])
    ensures !HasTwin([RouteKey("x\"", "y")])
  {
    CollapsedText([a, b]);
    assert [a, b][1..] == [b];
    assert Collapsed([a, b]) == RouteKey(a.input, a.output + "\",\"" + b.input + "\":\"" + b.output);
    var key := RouteKey("x\"", "y");
    HasTwinIff([key]);
    assert Inner(key) == "x\"\":\"y";
    forall i | 0 <= i < |Inner(key)| && DividesAt(Inner(key), i) ensures i == |key.input| {
      assert Inner(key)[i + 1] == COLON[1];
    }
  }
}
