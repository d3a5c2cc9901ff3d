/** The text key under which the gateway remembers a provider message, and when two messages share one. */
module DedupKey {
  import opened Prelude

  datatype Channel = Whatsapp | Web | Mobile | Voice | Api

  function ChannelValue(c: Channel): string {
    match c
    case Whatsapp => "whatsapp"
    case Web => "web"
    case Mobile => "mobile"
    case Voice => "voice"
    case Api => "api"
  }

  function ParseChannel(s: string): Option<Channel> {
    if s == "whatsapp" then Some(Whatsapp)
    else if s == "web" then Some(Web)
    else if s == "mobile" then Some(Mobile)
    else if s == "voice" then Some(Voice)
    else if s == "api" then Some(Api)
    else None
  }

  function Encode(channel: Channel, provider: string, messageId: string): string {
    "message:" + ChannelValue(channel) + ":" + provider + ":" + messageId
  }

  /** The keys, spelled out. */
  lemma KeyTexts(provider: string, messageId: string)
    ensures Encode(Whatsapp, provider, messageId) == "message:whatsapp:" + provider + ":" + messageId
    ensures Encode(Web, provider, messageId) == "message:web:" + provider + ":" + messageId
    ensures Encode(Mobile, provider, messageId) == "message:mobile:" + provider + ":" + messageId
    ensures Encode(Voice, provider, messageId) == "message:voice:" + provider + ":" + messageId
    ensures Encode(Api, provider, messageId) == "message:api:" + provider + ":" + messageId
  {
    assert "message:" + "whatsapp" + ":" == "message:whatsapp:";
    assert "message:" + "web" + ":" == "message:web:";
    assert "message:" + "mobile" + ":" == "message:mobile:";
    assert "message:" + "voice" + ":" == "message:voice:";
    assert "message:" + "api" + ":" == "message:api:";
  }

  /** The text by which a message names its channel. */
  predicate IsChannelText(c: Channel, text: string) {
    && (c == Whatsapp <==> text == "whatsapp") && (c == Web <==> text == "web") && (c == Mobile <==> text == "mobile")
    && (c == Voice <==> text == "voice") && (c == Api <==> text == "api")
  }

  /** The text before and after the first colon. */
  function SplitAtColon(s: string): Option<(string, string)> {
    if s == "" then None
    else if s[0] == ':' then Some(("", s[1..]))
    else
      match SplitAtColon(s[1..])
      case None => None
      case Some((before, after)) => Some(([s[0]] + before, after))
  }

  lemma {:induction false} SplitAtColonFinds(before: string, after: string)
    requires ':' !in before
    ensures SplitAtColon(before + ":" + after) == Some((before, after))
  {
    var s := before + ":" + after;
    if before == "" {
      assert s[1..] == after;
    } else {
      assert s[1..] == before[1..] + ":" + after && before == [s[0]] + before[1..];
      SplitAtColonFinds(before[1..], after);
    }
  }

  function Decode(key: string): Option<(Channel, string, string)> {
    match SplitAtColon(key)
    case None => None
    case Some((_, rest)) =>
      match SplitAtColon(rest)
      case None => None
      case Some((name, rest')) =>
        match (ParseChannel(name), SplitAtColon(rest'))
        case (Some(channel), Some((provider, messageId))) => Some((channel, provider, messageId))
        case _ => None
  }

  /** The part of the key after the channel. */
  lemma EncodeSplits(channel: Channel, provider: string, messageId: string)
    ensures SplitAtColon(Encode(channel, provider, messageId))
            == Some(("message", ChannelValue(channel) + ":" + (provider + ":" + messageId)))
    ensures SplitAtColon(ChannelValue(channel) + ":" + (provider + ":" + messageId))
            == Some((ChannelValue(channel), provider + ":" + messageId))
  {
    var rest := ChannelValue(channel) + ":" + (provider + ":" + messageId);
    assert Encode(channel, provider, messageId) == "message" + ":" + rest;
    SplitAtColonFinds("message", rest);
    SplitAtColonFinds(ChannelValue(channel), provider + ":" + messageId);
  }

  lemma DecodeInvertsEncode(channel: Channel, provider: string, messageId: string)
    requires ':' !in provider
    ensures Decode(Encode(channel, provider, messageId)) == Some((channel, provider, messageId))
  {
    EncodeSplits(channel, provider, messageId);
    SplitAtColonFinds(provider, messageId);
  }

  /** Exactly when two messages share a key. */
  lemma SameKeyIff(c: Channel, p: string, m: string, c': Channel, p': string, m': string)
    ensures Encode(c, p, m) == Encode(c', p', m') <==> c == c' && p + ":" + m == p' + ":" + m'
  {
    EncodeSplits(c, p, m);
    EncodeSplits(c', p', m');
    if c == c' && p + ":" + m == p' + ":" + m' {
      assert Encode(c, p, m) == "message:" + ChannelValue(c) + ":" + (p + ":" + m);
      assert Encode(c', p', m') == "message:" + ChannelValue(c) + ":" + (p' + ":" + m');
    }
  }

  /** Among providers without a colon the key is injective, whatever the message ids contain. */
  lemma KeyIsInjective(c: Channel, p: string, m: string, c': Channel, p': string, m': string)
    requires ':' !in p && ':' !in p'
    requires Encode(c, p, m) == Encode(c', p', m')
    ensures c == c' && p == p' && m == m'
  {
    DecodeInvertsEncode(c, p, m);
    DecodeInvertsEncode(c', p', m');
  }

  lemma CutAtColon(s: string) returns (before: string, after: string)
    requires ':' in s
    ensures s == before + ":" + after
  {
    var i :| 0 <= i < |s| && s[i] == ':';
    before, after := s[..i], s[i + 1..];
  }

  /** A key belongs to one message only, exactly when neither the provider nor the message id contains a colon. */
  lemma KeyIsUniqueIff(c: Channel, p: string, m: string)
    ensures (forall c', p', m' :: Encode(c', p', m') == Encode(c, p, m) ==> c' == c && p' == p && m' == m)
            <==> ':' !in p && ':' !in m
  {
    if ':' in p {
      var a, b := CutAtColon(p);
      assert a + ":" + (b + ":" + m) == p + ":" + m;
      SameKeyIff(c, p, m, c, a, b + ":" + m);
      assert |a| < |p|;
    } else if ':' in m {
      var a, b := CutAtColon(m);
      assert (p + ":" + a) + ":" + b == p + ":" + m;
      SameKeyIff(c, p, m, c, p + ":" + a, b);
      assert |b| < |m|;
    } else {
      forall c', p', m' | Encode(c', p', m') == Encode(c, p, m)
        ensures c' == c && p' == p && m' == m
      {
        OnlyColonIsTheSeparator(c, p, m, c', p', m');
      }
    }
  }

  lemma OnlyColonIsTheSeparator(c: Channel, p: string, m: string, c': Channel, p': string, m': string)
    requires ':' !in p && ':' !in m
    requires Encode(c', p', m') == Encode(c, p, m)
    ensures c' == c && p' == p && m' == m
  {
    SameKeyIff(c, p, m, c', p', m');
    var s := p + ":" + m;
    assert s == p' + ":" + m';
    assert s[|p|] == ':' && s[|p'|] == ':';
    assert |p| == |p'| by {
      assert forall i :: 0 <= i < |s| && s[i] == ':' ==> i == |p|;
    }
    assert s[..|p|] == p && s[..|p'|] == p' && s[|p| + 1..] == m && s[|p'| + 1..] == m';
  }
}
