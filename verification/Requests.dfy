/** Which publications become which commands, in the terms of the documentation: topics,
    words and lengths. */
module Requests {
  import opened CText
  import opened Messages
  import opened Dispatch
  import opened Receiving
  import opened Pipeline
  import CommandRuns

  /** The word is "get" in any mixture of cases. */
  predicate SpellsGet(word: string) {
    |word| == 3 && word[0] in {'g', 'G'} && word[1] in {'e', 'E'} && word[2] in {'t', 'T'}
  }

  predicate SpellsSet(word: string) {
    |word| == 3 && word[0] in {'s', 'S'} && word[1] in {'e', 'E'} && word[2] in {'t', 'T'}
  }

  /** The word the decoder finds in a publication's payload, "" when it finds none. */
  function WordOf(dec: Decoder, pub: Publication): CString {
    match dec.msgType(TextOf(pub.payload))
    case None => ""
    case Some(word) => word
  }

  lemma LowerIs(c: char, small: char, big: char)
    requires 'a' <= small <= 'z' && big as int == small as int - 32
    ensures Lower(c) == small <==> c == small || c == big
  {
  }

  lemma SameWord(word: CString)
    ensures SameIgnoringCase(word, "get") <==> SpellsGet(word)
    ensures SameIgnoringCase(word, "set") <==> SpellsSet(word)
  {
    forall i | 0 <= i < |word| && i < 3
      ensures Lower(word[i]) == Lower("get"[i]) <==> word[i] in {"get"[i], "GET"[i]}
      ensures Lower(word[i]) == Lower("set"[i]) <==> word[i] in {"set"[i], "SET"[i]}
    {
      LowerIs(word[i], "get"[i], "GET"[i]);
      LowerIs(word[i], "set"[i], "SET"[i]);
    }
    if |word| == 3 {
      assert (Lower(word[0]) == Lower("get"[0]) <==> word[0] in {'g', 'G'}) && (Lower(word[0]) == Lower("set"[0]) <==> word[0] in {'s', 'S'});
      assert Lower(word[1]) == Lower("get"[1]) <==> word[1] in {'e', 'E'};
      assert Lower(word[2]) == Lower("get"[2]) <==> word[2] in {'t', 'T'};
    }
  }

  /** The type of a payload is what its word spells. */
  lemma TypeIsWord(dec: Decoder, payload: string)
    ensures var word := dec.msgType(TextOf(payload));
            && (MsgTypeOf(dec, payload) == Some(GET) <==> word.Some? && SpellsGet(word.value))
            && (MsgTypeOf(dec, payload) == Some(SET) <==> word.Some? && SpellsSet(word.value))
            && (MsgTypeOf(dec, payload) == None <==> word.None? || !(SpellsGet(word.value) || SpellsSet(word.value)))
  {
    var word := dec.msgType(TextOf(payload));
    if word.Some? {
      SameWord(word.value);
    }
  }

  /** The publication is addressed to this instrument, and its key fits. */
  predicate HasKey(pub: Publication) {
    "cmd/hsfib-tib/req/" <= pub.topic && 19 <= |pub.topic| <= 65
  }

  predicate HasResponseTopic(pub: Publication) {
    pub.responseTopic.Some? && |pub.responseTopic.value| <= 63
  }

  lemma PrefixIs()
    ensures COMMAND_PREFIX == "cmd/hsfib-tib/req/" && |COMMAND_PREFIX| == 18
  {
  }

  lemma WordTypes(dec: Decoder, pub: Publication)
    requires |pub.payload| <= 255
    ensures var t := MsgTypeOf(dec, Padded(pub.payload, 256));
            && (t == Some(GET) <==> SpellsGet(WordOf(dec, pub))) && (t == Some(SET) <==> SpellsSet(WordOf(dec, pub)))
            && (t.Some? ==> t == Some(GET) || t == Some(SET))
  {
    PaddedKeepsText(pub.payload, 256);
    TypeIsWord(dec, Padded(pub.payload, 256));
  }

  /** When a publication is accepted, refused and ignored. */
  lemma Verdicts(dec: Decoder, pub: Publication)
    ensures Judge(dec, pub).Accepted? <==>
            && HasKey(pub) && |pub.payload| <= 255 && HasResponseTopic(pub)
            && (SpellsGet(WordOf(dec, pub)) || SpellsSet(WordOf(dec, pub)))
    ensures Judge(dec, pub).Ignored? <==> !("cmd/hsfib-tib/req/" <= pub.topic) || (HasKey(pub) && |pub.payload| > 255)
  {
    PrefixIs();
    if |pub.payload| <= 255 {
      WordTypes(dec, pub);
    }
  }

  /** What an accepted command holds. */
  ghost predicate Renders(dec: Decoder, pub: Publication, cmd: Command) {
    && Shaped(cmd) && HasKey(pub) && HasResponseTopic(pub)
    && cmd.msgType == (if SpellsGet(WordOf(dec, pub)) then GET else SET)
    && (SpellsGet(WordOf(dec, pub)) || SpellsSet(WordOf(dec, pub)))
    && TextOf(cmd.key) == pub.topic[18..]
    && TextOf(cmd.payload) == TextOf(pub.payload)
    && TextOf(cmd.responseTopic) == TextOf(pub.responseTopic.value)
    && cmd.corrLen == (if 1 <= |pub.correlation| <= 15 then |pub.correlation| else 0)
    && cmd.correlation[..cmd.corrLen] == pub.correlation[..cmd.corrLen]
  }

  /** The record of an accepted publication, field by field. */
  lemma AcceptedFields(dec: Decoder, pub: Publication)
    requires Judge(dec, pub).Accepted?
    ensures HasKey(pub) && |pub.payload| <= 255 && HasResponseTopic(pub)
    ensures var cmd := Judge(dec, pub).cmd;
            && MsgTypeOf(dec, Padded(pub.payload, 256)) == Some(cmd.msgType)
            && cmd.key == Padded(pub.topic[18..], 48) && cmd.payload == Padded(pub.payload, 256)
            && cmd.responseTopic == Padded(pub.responseTopic.value, 64)
            && cmd.corrLen == (if 1 <= |pub.correlation| <= 15 then |pub.correlation| else 0)
            && cmd.correlation[..cmd.corrLen] == pub.correlation[..cmd.corrLen]
  {
    Verdicts(dec, pub);
    PrefixIs();
  }

  lemma AcceptedRenders(dec: Decoder, pub: Publication)
    requires Judge(dec, pub).Accepted?
    ensures Renders(dec, pub, Judge(dec, pub).cmd)
  {
    AcceptedFields(dec, pub);
    WordTypes(dec, pub);
    PaddedText(pub.topic[18..], 48);
    PaddedKeepsText(pub.payload, 256);
    PaddedKeepsText(pub.responseTopic.value, 64);
  }

  /** A receiver that accepts no more than the coded one and fills the record as that does,
      with a payload length of its own. */
  ghost predicate Copies(dec: Decoder, judge: Publication -> Verdict) {
    forall pub :: judge(pub).Accepted? ==>
      && Judge(dec, pub).Accepted? && Shaped(judge(pub).cmd)
      && judge(pub).cmd == Judge(dec, pub).cmd.(payloadLen := judge(pub).cmd.payloadLen)
  }

  lemma ReceiversCopy(cfg: Config, dec: Decoder, start: Device)
    ensures Copies(dec, Firmware(cfg, dec, start).judge) && Copies(dec, pub => JudgeStoring(dec, pub))
  {
    forall pub | Firmware(cfg, dec, start).judge(pub).Accepted?
      ensures Judge(dec, pub).cmd == Judge(dec, pub).cmd.(payloadLen := Judge(dec, pub).cmd.payloadLen)
    {
    }
  }

  /** In every run behind such a receiver the i-th accepted command is made of the i-th
      accepted publication: its key is the topic after the prefix, its type what the word
      in the payload spells. */
  lemma CommandsRender(cfg: Config, dec: Decoder, judge: Publication -> Verdict, start: Device, steps: seq<Step>, i: nat)
    requires Copies(dec, judge)
    requires Run(FirmwareWith(cfg, dec, judge, start), Init(FirmwareWith(cfg, dec, judge, start)), steps)
    ensures var env := FirmwareWith(cfg, dec, judge, start);
            var t := After(env, Init(env), steps);
            |t.requests| == |t.accepted| && (i < |t.accepted| ==> Renders(dec, t.requests[i], t.accepted[i]))
  {
    var env := FirmwareWith(cfg, dec, judge, start);
    CommandRuns.InitInv(env);
    CommandRuns.RunKeepsInv(env, Init(env), steps);
    var t := After(env, Init(env), steps);
    if i < |t.accepted| {
      assert judge(t.requests[i]).cmd == t.accepted[i];
      AcceptedRenders(dec, t.requests[i]);
    }
  }
}
