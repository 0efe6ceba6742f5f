/** A reader for the part of JSON (RFC 8259) that has objects and strings without escapes,
    and what it makes of the route report. It knows nothing of how the report is written. */
module JsonReader {
  import opened CText
  import opened Sequences
  import opened Routing
  import RouteReport

  datatype Json = Text(text: string) | Object(members: seq<(string, Json)>)

  /** Characters that stand for themselves in a JSON string (section 7 of RFC 8259). */
  predicate PlainChar(c: char) {
    ' ' <= c && c != '\"' && c != '\\'
  }

  predicate Plain(s: string) {
    forall i :: 0 <= i < |s| ==> PlainChar(s[i])
  }

  ghost predicate PlainJson(j: Json) {
    match j
    case Text(s) => Plain(s)
    case Object(ms) => forall i :: 0 <= i < |ms| ==> Plain(ms[i].0) && PlainJson(ms[i].1)
  }

  ghost predicate PlainMembers(ms: seq<(string, Json)>) {
    forall i :: 0 <= i < |ms| ==> Plain(ms[i].0) && PlainJson(ms[i].1)
  }

  /** The number of plain characters at the front. */
  function PlainLength(s: string): (n: nat)
    ensures n <= |s| && Plain(s[..n]) && (n < |s| ==> !PlainChar(s[n]))
  {
    if s == "" || !PlainChar(s[0]) then 0 else 1 + PlainLength(s[1..])
  }

  lemma {:induction false} PlainLengthIs(s: string, n: nat)
    requires n <= |s| && Plain(s[..n]) && (n < |s| ==> !PlainChar(s[n]))
    ensures PlainLength(s) == n
  {
    if n > 0 {
      assert PlainChar(s[..n][0]);
      assert s[1..][..n - 1] == s[..n][1..];
      PlainLengthIs(s[1..], n - 1);
    }
  }

  /** A string at the front of s, and what follows its closing quote. */
  function ReadString(s: string): (r: Option<(string, string)>)
    ensures r.Some? ==> Plain(r.value.0) && |r.value.1| < |s|
  {
    if s == "" || s[0] != '\"' then None
    else
      var n := PlainLength(s[1..]);
      if 1 + n < |s| && s[1 + n] == '\"' then Some((s[1..][..n], s[2 + n..])) else None
  }

  /** A name, a colon and a value. */
  function ReadMember(s: string): (r: Option<((string, Json), string)>)
    ensures r.Some? ==> Plain(r.value.0.0) && PlainJson(r.value.0.1) && |r.value.1| < |s|
    decreases |s|, 0
  {
    match ReadString(s)
    case None => None
    case Some((name, rest)) =>
      if rest == "" || rest[0] != ':' then None
      else
        match ReadValue(rest[1..])
        case None => None
        case Some((value, end)) => Some(((name, value), end))
  }

  /** Members separated by commas up to a closing brace, and what follows that. */
  function ReadMembers(s: string): (r: Option<(seq<(string, Json)>, string)>)
    ensures r.Some? ==> PlainMembers(r.value.0) && |r.value.1| < |s|
    decreases |s|
  {
    match ReadMember(s)
    case None => None
    case Some((member, rest)) =>
      if rest == "" then None
      else if rest[0] == '}' then Some(([member], rest[1..]))
      else if rest[0] != ',' then None
      else
        match ReadMembers(rest[1..])
        case None => None
        case Some((members, end)) => Some(([member] + members, end))
  }

  /** A value at the front of s, and what follows it. */
  function ReadValue(s: string): (r: Option<(Json, string)>)
    ensures r.Some? ==> PlainJson(r.value.0) && |r.value.1| < |s|
    decreases |s|
  {
    if s == "" then None
    else if s[0] == '\"' then
      match ReadString(s)
      case None => None
      case Some((text, rest)) => Some((Text(text), rest))
    else if s[0] != '{' then None
    else if |s| > 1 && s[1] == '}' then Some((Object([]), s[2..]))
    else
      match ReadMembers(s[1..])
      case None => None
      case Some((members, rest)) => Some((Object(members), rest))
  }

  /** The value a whole text stands for. */
  function ReadDocument(s: string): (r: Option<Json>)
    ensures r.Some? ==> PlainJson(r.value)
  {
    match ReadValue(s)
    case None => None
    case Some((value, rest)) => if rest == "" then Some(value) else None
  }

  // ---------- reading what the writer writes ----------

  /** The members a list of keys should be: each input named, with its output. */
  function Pairs(keys: seq<RouteKey>): (ms: seq<(string, Json)>)
    ensures |ms| == |keys|
  {
    seq(|keys|, i requires 0 <= i < |keys| => (keys[i].input, Text(keys[i].output)))
  }

  ghost predicate PlainKeys(keys: seq<RouteKey>) {
    forall i :: 0 <= i < |keys| ==> Plain(keys[i].input) && Plain(keys[i].output)
  }

  lemma StringRead(name: string, rest: string)
    requires Plain(name)
    ensures ReadString("\"" + name + "\"" + rest) == Some((name, rest))
  {
    var s := "\"" + name + "\"" + rest;
    assert s[1..] == name + "\"" + rest;
    assert s[1..][..|name|] == name && s[1..][|name|] == '\"';
    PlainLengthIs(s[1..], |name|);
    assert s[2 + |name|..] == rest;
  }

  lemma TextRead(text: string, rest: string)
    requires Plain(text)
    ensures ReadValue("\"" + text + "\"" + rest) == Some((Text(text), rest))
  {
    StringRead(text, rest);
    assert ("\"" + text + "\"" + rest)[0] == '\"';
  }

  lemma MemberRead(name: string, s: string, value: Json, rest: string)
    requires Plain(name) && ReadValue(s) == Some((value, rest))
    ensures ReadMember("\"" + name + "\"" + (":" + s)) == Some(((name, value), rest))
  {
    StringRead(name, ":" + s);
    assert (":" + s)[1..] == s;
  }

  lemma PairParts(key: RouteKey, rest: CString)
    ensures RouteReport.PairThen(key, rest) == "\"" + key.input + "\"" + (":" + ("\"" + key.output + "\"" + rest))
  {
    var front := "\"" + key.input;
    assert front + "\":\"" == front + "\"" + ":" + "\"";
    Assoc(front + "\"" + ":" + "\"", key.output, "\"");
    Assoc(front + "\"" + ":", "\"", key.output + "\"");
    Assoc("\"", key.output, "\"");
    var value := "\"" + key.output + "\"";
    Assoc(front + "\"" + ":", value, rest);
    Assoc(front + "\"", ":", value + rest);
  }

  lemma PairRead(key: RouteKey, rest: CString)
    requires Plain(key.input) && Plain(key.output)
    ensures ReadMember(RouteReport.PairThen(key, rest)) == Some(((key.input, Text(key.output)), rest))
  {
    var value := "\"" + key.output + "\"" + rest;
    TextRead(key.output, rest);
    MemberRead(key.input, value, Text(key.output), rest);
    PairParts(key, rest);
  }

  lemma MembersUnfold(s: string, member: (string, Json), rest: string)
    requires ReadMember(s) == Some((member, rest))
    ensures rest != "" && rest[0] == '}' ==> ReadMembers(s) == Some(([member], rest[1..]))
    ensures rest != "" && rest[0] == ',' && ReadMembers(rest[1..]).Some? ==>
              ReadMembers(s) == Some(([member] + ReadMembers(rest[1..]).value.0, ReadMembers(rest[1..]).value.1))
  {
  }

  lemma LastPairRead(key: RouteKey)
    requires Plain(key.input) && Plain(key.output)
    ensures ReadMembers(RouteReport.PairThen(key, "}}")) == Some(([(key.input, Text(key.output))], "}"))
  {
    PairRead(key, "}}");
    MembersUnfold(RouteReport.PairThen(key, "}}"), (key.input, Text(key.output)), "}}");
    assert "}}"[1..] == "}";
  }

  lemma FirstPairRead(key: RouteKey, more: CString, members: seq<(string, Json)>)
    requires Plain(key.input) && Plain(key.output) && ReadMembers(more) == Some((members, "}"))
    ensures ReadMembers(RouteReport.PairThen(key, RouteReport.CommaThen(more))) ==
            Some(([(key.input, Text(key.output))] + members, "}"))
  {
    var rest := RouteReport.CommaThen(more);
    PairRead(key, rest);
    MembersUnfold(RouteReport.PairThen(key, rest), (key.input, Text(key.output)), rest);
  }

  lemma PairsFront(key: RouteKey, tail: seq<RouteKey>)
    ensures Pairs([key] + tail) == [(key.input, Text(key.output))] + Pairs(tail)
  {
  }

  lemma {:induction false} PairsRead(key: RouteKey, tail: seq<RouteKey>)
    requires Plain(key.input) && Plain(key.output) && PlainKeys(tail)
    ensures ReadMembers(RouteReport.PairThen(key, RouteReport.MoreText(tail))) == Some((Pairs([key] + tail), "}"))
    decreases |tail|
  {
    PairsFront(key, tail);
    if tail == [] {
      LastPairRead(key);
      assert RouteReport.MoreText(tail) == "}}" && Pairs(tail) == [];
      assert [(key.input, Text(key.output))] + Pairs(tail) == [(key.input, Text(key.output))];
    } else {
      PairsRead(tail[0], tail[1..]);
      assert tail == [tail[0]] + tail[1..];
      var more := RouteReport.PairThen(tail[0], RouteReport.MoreText(tail[1..]));
      FirstPairRead(key, more, Pairs(tail));
      assert RouteReport.MoreText(tail) == RouteReport.CommaThen(more);
    }
  }

  /** The object of the listed pairs, and the last brace of the report. */
  lemma InnerRead(keys: seq<RouteKey>)
    requires PlainKeys(keys)
    ensures ReadValue("{" + RouteReport.ListText(keys)) == Some((Object(Pairs(keys)), "}"))
  {
    var list := RouteReport.ListText(keys);
    var s := "{" + list;
    assert s[1..] == list;
    if keys == [] {
      assert list == "}}" && s[2..] == "}";
      assert Pairs([]) == [];
    } else {
      RouteReport.RenderFront(keys);
      PairsRead(keys[0], keys[1..]);
      assert keys == [keys[0]] + keys[1..];
      assert list[0] == '\"';
    }
  }

  lemma ReportSplit(list: string)
    ensures "{\"active_routes\":{" + list == "{" + ("\"" + "active_routes" + "\"" + (":" + ("{" + list)))
  {
  }

  lemma RenderRead(keys: seq<RouteKey>)
    requires PlainKeys(keys)
    ensures ReadDocument(RouteReport.Render(keys)) == Some(Object([("active_routes", Object(Pairs(keys)))]))
  {
    var list := RouteReport.ListText(keys);
    var member := ("active_routes", Object(Pairs(keys)));
    var inner := "\"" + "active_routes" + "\"" + (":" + ("{" + list));
    InnerRead(keys);
    MemberRead("active_routes", "{" + list, Object(Pairs(keys)), "}");
    MembersUnfold(inner, member, "}");
    ReportSplit(list);
    assert ("{" + inner)[1..] == inner && inner[0] == '\"';
    assert ReadValue("{" + inner) == Some((Object([member]), ""));
  }

  /** The route report is JSON: one object with the one member "active_routes", whose value
      is the object of exactly the listed pairs, in their order, if and only if no name has
      a character that JSON wants escaped. */
  lemma ReportIsJson(keys: seq<RouteKey>)
    ensures ReadDocument(RouteReport.Render(keys)) == Some(Object([("active_routes", Object(Pairs(keys)))])) <==>
            PlainKeys(keys)
  {
    if PlainKeys(keys) {
      RenderRead(keys);
    }
    if ReadDocument(RouteReport.Render(keys)) == Some(Object([("active_routes", Object(Pairs(keys)))])) {
      var inner := Object(Pairs(keys));
      var outer := Object([("active_routes", inner)]);
      assert PlainJson(outer) && PlainJson(outer.members[0].1);
      forall i | 0 <= i < |keys| ensures Plain(keys[i].input) && Plain(keys[i].output) {
        assert PlainJson(inner.members[i].1);
      }
    }
  }
}
