/** The "name/setting" key parser. The application and the library each hold a copy;
    both are proved against one function. */
module KeyPairs {
  import opened CText

  datatype KeyPair =
    | Pair(name: CString, setting: CString)
    | NoSlash
    | BadName
    | BadSetting(name: CString)
  {
    /** The return code of the C function. */
    function Code(): int {
      match this
      case Pair(_, _) => 0
      case NoSlash => -1
      case BadName => -2
      case BadSetting(_) => -3
    }
  }

  function ParseKeyPair(key: CString, maxName: nat, maxSetting: nat): (r: KeyPair)
  {
    var slash := IndexOf(key, '/');
    if slash == |key| then NoSlash
    else if slash == 0 || slash >= maxName then BadName
    else
      var start := slash + 1;
      var len := IndexOf(key[start..], '/');
      if len == 0 || len >= maxSetting then BadSetting(key[..slash])
      else Pair(key[..slash], key[start..start + len])
  }

  ghost predicate SlashFree(s: string) {
    '/' !in s
  }

  /** What may follow the setting: nothing, or a further level of the key. */
  ghost predicate Tail(s: string) {
    s == "" || s[0] == '/'
  }

  lemma IndexOfPrefix(a: string, b: string, c: char)
    requires c !in a && (b == "" || b[0] == c)
    ensures IndexOf(a + b, c) == |a|
  {
    assert (a + b)[..|a|] == a;
    IndexOfIs(a + b, c, |a|);
  }

  /** Where the first search of the parser stops in a join, and what it leaves. */
  lemma NameFound(name: CString, setting: CString, tail: CString)
    requires SlashFree(name)
    ensures var key := name + "/" + setting + tail;
            && IndexOf(key, '/') == |name| < |key| && key[..|name|] == name
            && key[|name| + 1..] == setting + tail
  {
    var key := name + "/" + setting + tail;
    assert key == name + ("/" + setting + tail);
    IndexOfPrefix(name, "/" + setting + tail, '/');
  }

  /** Where the second search stops. */
  lemma SettingFound(setting: CString, tail: CString)
    requires SlashFree(setting) && Tail(tail)
    ensures IndexOf(setting + tail, '/') == |setting| && (setting + tail)[..|setting|] == setting
  {
    IndexOfPrefix(setting, tail, '/');
  }

  lemma JoinFacts(name: CString, setting: CString, tail: CString)
    requires SlashFree(name) && SlashFree(setting) && Tail(tail)
    ensures var key := name + "/" + setting + tail;
            && IndexOf(key, '/') == |name| < |key| && key[..|name|] == name
            && key[|name| + 1..] == setting + tail
            && IndexOf(key[|name| + 1..], '/') == |setting|
            && key[|name| + 1..|name| + 1 + |setting|] == setting
  {
    var key := name + "/" + setting + tail;
    NameFound(name, setting, tail);
    SettingFound(setting, tail);
    assert key[|name| + 1..|name| + 1 + |setting|] == key[|name| + 1..][..|setting|];
  }

  /** The parser inverts joining with "/": on a key that is split into slash-free parts
      the answer depends on the lengths of the two parts alone, and each of the three
      outcomes of a key with a slash happens for exactly the lengths named here. */
  lemma ParseOfJoin(name: CString, setting: CString, tail: CString, maxName: nat, maxSetting: nat)
    requires SlashFree(name) && SlashFree(setting) && Tail(tail)
    ensures var key: CString := name + "/" + setting + tail;
            ParseKeyPair(key, maxName, maxSetting) ==
            if !(0 < |name| < maxName) then BadName
            else if !(0 < |setting| < maxSetting) then BadSetting(name)
            else Pair(name, setting)
  {
    JoinFacts(name, setting, tail);
  }

  lemma Reassemble(key: string, i: nat, n: nat)
    requires i < |key| && key[i] == '/' && i + 1 + n <= |key|
    ensures key == key[..i] + "/" + key[i + 1..][..n] + key[i + 1..][n..]
  {
    var rest := key[i + 1..];
    assert rest == rest[..n] + rest[n..];
    assert key == key[..i] + "/" + rest;
  }

  /** Every key with a slash is such a join, so ParseOfJoin covers them all. */
  lemma EveryKeySplits(key: CString) returns (name: CString, setting: CString, tail: CString)
    requires '/' in key
    ensures SlashFree(name) && SlashFree(setting) && Tail(tail) && key == name + "/" + setting + tail
  {
    var slash := IndexOf(key, '/');
    var rest := key[slash + 1..];
    var len := IndexOf(rest, '/');
    name, setting, tail := key[..slash], rest[..len], rest[len..];
    Reassemble(key, slash, len);
  }

  /** name is the part of the key before its first slash. */
  ghost predicate NameOf(key: string, name: string) {
    SlashFree(name) && name + "/" <= key
  }

  /** setting is the part of the key between its first slash and the next one or the end. */
  ghost predicate SettingOf(key: string, name: string, setting: string) {
    && NameOf(key, name) && SlashFree(setting) && name + "/" + setting <= key
    && Tail(key[|name| + 1 + |setting|..])
  }

  lemma SplitIsSettingOf(key: CString, name: CString, setting: CString, tail: CString)
    requires SlashFree(name) && SlashFree(setting) && Tail(tail) && key == name + "/" + setting + tail
    ensures SettingOf(key, name, setting)
  {
    assert key[|name| + 1 + |setting|..] == tail;
  }

  lemma NameHasSlash(key: string, name: string)
    ensures NameOf(key, name) ==> '/' in key
  {
    if NameOf(key, name) {
      assert (name + "/")[|name|] == key[|name|];
    }
  }

  lemma NameIsUnique(key: string, m: string, n: string)
    requires NameOf(key, m) && NameOf(key, n)
    ensures m == n
  {
    assert (m + "/")[|m|] == key[|m|] && (n + "/")[|n|] == key[|n|];
    assert key == m + key[|m|..] && key == n + key[|n|..];
    IndexOfPrefix(m, key[|m|..], '/');
    IndexOfPrefix(n, key[|n|..], '/');
    assert m == key[..|m|] && n == key[..|n|];
  }

  lemma SettingIsUnique(key: string, n: string, s: string, u: string)
    requires SettingOf(key, n, s) && SettingOf(key, n, u)
    ensures s == u
  {
    var rest := key[|n| + 1..];
    assert rest == s + key[|n| + 1 + |s|..];
    assert rest == u + key[|n| + 1 + |u|..];
    IndexOfPrefix(s, key[|n| + 1 + |s|..], '/');
    IndexOfPrefix(u, key[|n| + 1 + |u|..], '/');
    assert s == rest[..|s|] && u == rest[..|u|];
  }

  /** Success, in both directions: the parts are slash-free, non-empty, fit their
      buffers with the terminator, and the key is their join with at most a further
      level after it. */
  lemma PairIffJoin(key: CString, name: CString, setting: CString, maxName: nat, maxSetting: nat)
    ensures ParseKeyPair(key, maxName, maxSetting) == Pair(name, setting) <==>
            SettingOf(key, name, setting) && 0 < |name| < maxName && 0 < |setting| < maxSetting
  {
    NameHasSlash(key, name);
    if '/' in key {
      var n, s, t := EveryKeySplits(key);
      ParseOfJoin(n, s, t, maxName, maxSetting);
      SplitIsSettingOf(key, n, s, t);
      if SettingOf(key, name, setting) {
        NameIsUnique(key, name, n);
        SettingIsUnique(key, n, setting, s);
      }
    }
  }

  /** The return codes partition all keys. */
  lemma CodesPartition(key: CString, maxName: nat, maxSetting: nat)
    ensures var code := ParseKeyPair(key, maxName, maxSetting).Code();
            && (code == -1 <==> SlashFree(key))
            && (code == -2 <==> exists n: CString :: NameOf(key, n) && !(0 < |n| < maxName))
            && (code == -3 <==> exists n: CString, s: CString ::
                  SettingOf(key, n, s) && 0 < |n| < maxName && !(0 < |s| < maxSetting))
  {
    if '/' in key {
      var n, s, t := EveryKeySplits(key);
      ParseOfJoin(n, s, t, maxName, maxSetting);
      SplitIsSettingOf(key, n, s, t);
      forall m: CString | NameOf(key, m) ensures m == n {
        NameIsUnique(key, m, n);
      }
      forall u: CString | SettingOf(key, n, u) ensures u == s {
        SettingIsUnique(key, n, u, s);
      }
    } else {
      forall m: CString ensures !NameOf(key, m) {
        NameHasSlash(key, m);
      }
    }
  }

  /** A text and its terminator at the start of a buffer; the rest is not touched. */
  ghost function Stored(before: string, text: CString): string
    requires |text| < |before|
  {
    text + [NUL] + before[|text| + 1..]
  }

  /** What the call leaves in the name buffer, which is filled before the setting is
      looked at. */
  ghost function NameBuffer(before: string, r: KeyPair): string {
    match r
    case Pair(name, _) => if |name| < |before| then Stored(before, name) else before
    case BadSetting(name) => if |name| < |before| then Stored(before, name) else before
    case _ => before
  }

  ghost function SettingBuffer(before: string, r: KeyPair): string {
    match r
    case Pair(_, setting) => if |setting| < |before| then Stored(before, setting) else before
    case _ => before
  }

  method StoreText(buf: array<char>, text: CString)
    requires |text| < buf.Length
    modifies buf
    ensures buf[..] == Stored(old(buf[..]), text)
  {
    MemCpy(buf, 0, text);
    buf[|text|] := NUL;
  }

  /** The application's copy. */
  method ParseKeyPairInto(key: CString, outName: array<char>, maxName: nat, outSetting: array<char>, maxSetting: nat)
    returns (rc: int)
    requires maxName <= outName.Length && maxSetting <= outSetting.Length && outName != outSetting
    modifies outName, outSetting
    ensures var r := ParseKeyPair(key, maxName, maxSetting);
            && rc == r.Code()
            && outName[..] == NameBuffer(old(outName[..]), r)
            && outSetting[..] == SettingBuffer(old(outSetting[..]), r)
  {
    var slash := IndexOf(key, '/');
    if slash == |key| {
      return -1;
    }
    if slash == 0 || slash >= maxName {
      return -2;
    }
    StoreText(outName, key[..slash]);
    var start := slash + 1;
    var len := IndexOf(key[start..], '/');
    if len == 0 || len >= maxSetting {
      return -3;
    }
    StoreText(outSetting, key[start..start + len]);
    return 0;
  }

  /** The library's copy. */
  method JsonParseKeyPair(key: CString, outName: array<char>, maxName: nat, outSetting: array<char>, maxSetting: nat)
    returns (rc: int)
    requires maxName <= outName.Length && maxSetting <= outSetting.Length && outName != outSetting
    modifies outName, outSetting
    ensures var r := ParseKeyPair(key, maxName, maxSetting);
            && rc == r.Code()
            && outName[..] == NameBuffer(old(outName[..]), r)
            && outSetting[..] == SettingBuffer(old(outSetting[..]), r)
  {
    var slash := IndexOf(key, '/');
    if slash == |key| {
      rc := -1;
    } else if slash == 0 || slash >= maxName {
      rc := -2;
    } else {
      StoreText(outName, key[..slash]);
      var rest := key[slash + 1..];
      var len := IndexOf(rest, '/');
      if len == 0 || len >= maxSetting {
        rc := -3;
      } else {
        var setting := key[slash + 1..slash + 1 + len];
        assert setting == rest[..len];
        StoreText(outSetting, setting);
        rc := 0;
      }
    }
  }
}
