/** The hand-written parser for {"cmd":"<command>","value":<number>}. */
module CommandJson {
  import opened CText
  import opened KeyPairs

  predicate Occurs(s: string, pattern: string, i: nat) {
    i + |pattern| <= |s| && s[i..i + |pattern|] == pattern
  }

  /** The first occurrence of the pattern, |s| when there is none (`strstr`). */
  function StrStr(s: string, pattern: string): (i: nat)
    requires pattern != ""
    ensures i <= |s|
    ensures i < |s| ==> Occurs(s, pattern, i)
    ensures forall j: nat :: j < i ==> !Occurs(s, pattern, j)
    decreases |s|
  {
    if s == "" || Occurs(s, pattern, 0) then 0
    else
      var rest := StrStr(s[1..], pattern);
      assert forall j: nat :: 0 < j ==> (Occurs(s, pattern, j) <==> Occurs(s[1..], pattern, j - 1));
      1 + rest
  }

  lemma StrStrIs(s: string, pattern: string, i: nat)
    requires pattern != "" && Occurs(s, pattern, i)
    requires forall j: nat :: j < i ==> !Occurs(s, pattern, j)
    ensures StrStr(s, pattern) == i && i < |s|
  {
  }

  const CMD_FIELD: CString := "\"cmd\":\""
  const VALUE_FIELD: CString := "\"value\":"

  /** Where the number comes from: the text handed to `strtof`, or 0 when there is no
      value field. */
  datatype Number = ParsedFrom(text: CString) | Absent

  datatype Result = Invalid | NoRoom | Command(cmd: CString, value: Number)

  /** The text between the command field and the next quote. */
  function FindCommand(json: CString): Option<CString> {
    var at := StrStr(json, CMD_FIELD);
    if at == |json| then None
    else
      var start := at + |CMD_FIELD|;
      var len := IndexOf(json[start..], '\"');
      if start + len == |json| then None else Some(json[start..start + len])
  }

  function FindValue(json: CString): Number {
    var v := StrStr(json, VALUE_FIELD);
    if v == |json| then Absent else ParsedFrom(json[v + |VALUE_FIELD|..])
  }

  function ParseCommand(json: CString, cmdSize: nat): (r: Result)
  {
    match FindCommand(json)
    case None => Invalid
    case Some(cmd) => if |cmd| >= cmdSize then NoRoom else Command(cmd, FindValue(json))
  }

  /** The message a client writes. */
  function Message(cmd: CString, value: CString): (json: CString)
  {
    "{\"cmd\":\"" + cmd + "\",\"value\":" + value + "}"
  }

  lemma FirstQuote(cmd: CString, rest: CString)
    requires rest != "" && rest[0] == '\"'
    ensures var q := IndexOf(cmd + rest, '\"');
            q <= |cmd| && q == IndexOf(cmd, '\"')
  {
    var q := IndexOf(cmd, '\"');
    assert (cmd + rest)[..q] == cmd[..q];
    IndexOfIs(cmd + rest, '\"', q);
  }

  lemma CmdFieldFirst(cmd: CString, value: CString)
    ensures StrStr(Message(cmd, value), CMD_FIELD) == 1
    ensures Message(cmd, value)[8..] == cmd + ("\"," + VALUE_FIELD + value + "}")
  {
    var m := Message(cmd, value);
    assert m[1..8] == CMD_FIELD;
    assert !Occurs(m, CMD_FIELD, 0) by {
      assert m[0] != CMD_FIELD[0];
      assert m[0..7][0] == m[0];
    }
    StrStrIs(m, CMD_FIELD, 1);
  }

  lemma NoOccurrence(m: string, j: nat, d: nat)
    requires d < 8 && j + d < |m| && m[j + d] != VALUE_FIELD[d]
    ensures !Occurs(m, VALUE_FIELD, j)
  {
    if j + 8 <= |m| {
      assert m[j..j + 8][d] == m[j + d];
    }
  }

  /** Before its own place the value field cannot start: each earlier position has a
      character that differs from it. The closing quote of the command is the only
      quote a start at the opening quote could use for the quote inside the field, and
      a comma follows it where the field has a colon. */
  lemma NoValueFieldBefore(cmd: CString, value: CString, j: nat)
    requires '\"' !in cmd && j < 10 + |cmd|
    ensures !Occurs(Message(cmd, value), VALUE_FIELD, j)
  {
    var m := Message(cmd, value);
    var n := |cmd|;
    assert m[..8] == "{\"cmd\":\"";
    assert m[8..8 + n] == cmd;
    assert m[8 + n] == '\"' && m[9 + n] == ',' && |m| >= 18 + n;
    var d :=
      if j == 1 || j == 5 || j == 8 + n then 1
      else if j == 7 then (if n < 5 then 1 + n else if n == 5 then 7 else 6)
      else 0;
    if j < 8 {
      assert m[j] == m[..8][j] && (j + 1 < 8 ==> m[j + 1] == m[..8][j + 1]);
      if j == 7 && n > 5 {
        assert m[13] == cmd[5];
      }
    } else if j < 8 + n {
      assert m[j] == cmd[j - 8];
    }
    NoOccurrence(m, j, d);
  }

  /** In a message whose command has no quote the first value field is the real one,
      even when the command is "value" or contains it. */
  lemma ValueFieldFirst(cmd: CString, value: CString)
    requires '\"' !in cmd
    ensures StrStr(Message(cmd, value), VALUE_FIELD) == 10 + |cmd|
    ensures Message(cmd, value)[10 + |cmd| + |VALUE_FIELD|..] == value + "}"
  {
    var m := Message(cmd, value);
    var at := 10 + |cmd|;
    assert m[at..at + 8] == VALUE_FIELD;
    forall j: nat | j < at ensures !Occurs(m, VALUE_FIELD, j) {
      NoValueFieldBefore(cmd, value, j);
    }
    StrStrIs(m, VALUE_FIELD, at);
  }

  lemma HeadOfRest(m: string, cmd: string, rest: string, q: nat)
    requires 8 <= |m| && m[8..] == cmd + rest && q <= |cmd| && rest != ""
    ensures 8 + q < |m| && m[8..8 + q] == cmd[..q]
  {
    assert m[8..][..q] == m[8..8 + q];
    assert (cmd + rest)[..q] == cmd[..q];
  }

  /** Where the parser finds the command: at the front of the message, up to the first
      quote of the command or, with none in it, up to the closing quote. */
  lemma CommandFound(cmd: CString, value: CString)
    ensures var m, q := Message(cmd, value), IndexOf(cmd, '\"');
            && StrStr(m, CMD_FIELD) == 1
            && IndexOf(m[8..], '\"') == q
            && 8 + q < |m| && m[8..8 + q] == cmd[..q]
  {
    var m, q := Message(cmd, value), IndexOf(cmd, '\"');
    var rest := "\"," + VALUE_FIELD + value + "}";
    CmdFieldFirst(cmd, value);
    FirstQuote(cmd, rest);
    HeadOfRest(m, cmd, rest, q);
  }

  lemma CommandParsed(cmd: CString, value: CString)
    ensures FindCommand(Message(cmd, value)) == Some(cmd[..IndexOf(cmd, '\"')])
  {
    CommandFound(cmd, value);
  }

  lemma ValueParsed(cmd: CString, value: CString)
    requires '\"' !in cmd
    ensures FindValue(Message(cmd, value)) == ParsedFrom(value + "}")
  {
    ValueFieldFirst(cmd, value);
  }

  /** Round trip for every command text and every value text: the parser yields the
      command exactly when it has no quote in it (and otherwise its part before the
      first quote), as long as that part fits the buffer; and with no quote in it the
      number is read from exactly the value's text. */
  lemma RoundTrip(cmd: CString, value: CString, cmdSize: nat)
    ensures var q := IndexOf(cmd, '\"');
            var r := ParseCommand(Message(cmd, value), cmdSize);
            && (q >= cmdSize ==> r == NoRoom)
            && (q < cmdSize ==> r.Command? && r.cmd == cmd[..q])
            && (q < cmdSize ==> (r.cmd == cmd <==> '\"' !in cmd))
            && (q < cmdSize && '\"' !in cmd ==> r == Command(cmd, ParsedFrom(value + "}")))
  {
    CommandParsed(cmd, value);
    var q := IndexOf(cmd, '\"');
    if '\"' !in cmd {
      ValueParsed(cmd, value);
      assert cmd[..q] == cmd;
    } else {
      assert |cmd[..q]| < |cmd|;
    }
  }

  /** The parser as written, with the command buffer it fills. */
  method JsonParseCommand(json: CString, cmdOut: array<char>, cmdSize: nat, wantValue: bool)
    returns (rc: int, value: Option<Number>)
    requires cmdSize <= cmdOut.Length
    modifies cmdOut
    ensures ParseCommand(json, cmdSize).Invalid? ==> rc == -22
    ensures ParseCommand(json, cmdSize).NoRoom? ==> rc == -12
    ensures rc == 0 <==> ParseCommand(json, cmdSize).Command?
    ensures rc != 0 ==> value == None && cmdOut[..] == old(cmdOut[..])
    ensures rc == 0 ==>
              var r := ParseCommand(json, cmdSize);
              && |r.cmd| < cmdOut.Length && cmdOut[..] == Stored(old(cmdOut[..]), r.cmd)
              && value == if wantValue then Some(r.value) else None
  {
    value := None;
    var at := StrStr(json, CMD_FIELD);
    if at == |json| {
      return -22, None;
    }
    var start := at + |CMD_FIELD|;
    var len := IndexOf(json[start..], '\"');
    if start + len == |json| {
      return -22, None;
    }
    var cmd := json[start..start + len];
    assert FindCommand(json) == Some(cmd);
    if len >= cmdSize {
      return -12, None;
    }
    StoreText(cmdOut, cmd);
    if wantValue {
      value := Some(FindValue(json));
    }
    rc := 0;
  }
}
