/**
 * Channel and user mentions. The pattern `(<#)?(\d+)(>)?` (or `(<@)?...`)
 * matched leftmost yields, as its second group, the first maximal run of
 * ASCII digits; the optional brackets never change which run that is.
 */
module Mentions {
  import opened Wrappers
  import opened Discord
  import opened Decimal
  import opened Resolver

  /** Length of the run of non-digits at the start of s: the index of its first digit, or |s|. */
  function FirstDigitIndex(s: string): (k: nat)
    ensures k <= |s|
    ensures forall i :: 0 <= i < k ==> !IsDigit(s[i])
    ensures k < |s| ==> IsDigit(s[k])
  {
    if s == [] || IsDigit(s[0]) then 0 else 1 + FirstDigitIndex(s[1..])
  }

  /** Length of the run of digits at the start of s. */
  function DigitRunLength(s: string): (n: nat)
    ensures n <= |s|
    ensures forall i :: 0 <= i < n ==> IsDigit(s[i])
    ensures n < |s| ==> !IsDigit(s[n])
  {
    if s == [] || !IsDigit(s[0]) then 0 else 1 + DigitRunLength(s[1..])
  }

  /** `run` sits at index k of s, no digit comes before it and no digit right after it. */
  predicate IsFirstDigitRunAt(s: string, k: int, run: string) {
    0 <= k && k + |run| <= |s| && s[k..k + |run|] == run
    && (forall i :: 0 <= i < k ==> !IsDigit(s[i]))
    && (k + |run| == |s| || !IsDigit(s[k + |run|]))
  }

  /** The ID group of a mention: the first maximal run of digits, None when s has no digit. */
  function MentionID(s: string): (r: Option<string>)
    ensures r.None? <==> forall i :: 0 <= i < |s| ==> !IsDigit(s[i])
    ensures r.Some? ==> |r.value| > 0 && AllDigits(r.value)
    ensures r.Some? ==> exists k :: IsFirstDigitRunAt(s, k, r.value)
  {
    var k := FirstDigitIndex(s);
    if k == |s| then None
    else
      var n := DigitRunLength(s[k..]);
      assert s[k..][n..] == s[k + n..];
      assert s[k..k + n] == s[k..][..n];
      assert IsFirstDigitRunAt(s, k, s[k..k + n]);
      Some(s[k..k + n])
  }

  /** The mention brackets around an ID do not change the ID read from it. */
  lemma MentionIDOfBracketedID(prefix: string, id: string)
    requires prefix == "<#" || prefix == "<@"
    requires |id| > 0 && AllDigits(id)
    ensures MentionID(prefix + id + ">") == Some(id)
  {
    var s := prefix + id + ">";
    assert FirstDigitIndex(s) == 2 by {
      assert !IsDigit(s[0]) && !IsDigit(s[1]) && IsDigit(s[2]);
      assert FirstDigitIndex(s[2..]) == 0;
      assert FirstDigitIndex(s[1..]) == 1 + FirstDigitIndex(s[1..][1..]);
      assert s[1..][1..] == s[2..];
    }
    DigitRunOfDigits(id, ">");
    assert s[2..] == id + ">";
  }

  lemma {:induction false} DigitRunOfDigits(id: string, rest: string)
    requires AllDigits(id)
    requires rest == [] || !IsDigit(rest[0])
    ensures DigitRunLength(id + rest) == |id|
  {
    if id != [] {
      assert (id + rest)[1..] == id[1..] + rest;
      DigitRunOfDigits(id[1..], rest);
    }
  }

  const ChannelNotFound: string := "Channel not found."
  const NotATextChannel: string := "not a text channel"
  const ChannelOnDifferentGuild: string := "Channel on different guild."
  const UserNotFound: string := "User not found."

  /**
   * A channel mention resolved for the channel a message was sent in: the
   * target must be a text channel on the same guild as the source channel.
   */
  function GetChannelFromMention(gw: Gateway, api: Remote, msg: Message, mention: string): (r: Lookup<Channel>)
    ensures MentionID(mention).None? ==> r == Failure(Failed(ChannelNotFound))
    ensures r.Success? ==>
      MentionID(mention).Some?
      && GetChannel(gw, api, MentionID(mention).value) == r
      && r.value.kind == GuildText
      && GetChannel(gw, api, msg.channelID).Success?
      && GetChannel(gw, api, msg.channelID).value.guildID == r.value.guildID
    ensures MentionID(mention).Some? && GetChannel(gw, api, msg.channelID).Failure? ==>
      r == GetChannel(gw, api, msg.channelID)
    ensures (MentionID(mention).Some? && GetChannel(gw, api, msg.channelID).Success?
             && GetChannel(gw, api, MentionID(mention).value).Failure?) ==>
      r == GetChannel(gw, api, MentionID(mention).value)
    ensures (MentionID(mention).Some? && GetChannel(gw, api, msg.channelID).Success?
             && GetChannel(gw, api, MentionID(mention).value).Success?) ==>
        var target := GetChannel(gw, api, MentionID(mention).value).value;
        if target.kind != GuildText then r == Failure(Failed(NotATextChannel))
        else if target.guildID != GetChannel(gw, api, msg.channelID).value.guildID then r == Failure(Failed(ChannelOnDifferentGuild))
        else r == Success(target)
  {
    match MentionID(mention)
    case None => Failure(Failed(ChannelNotFound))
    case Some(id) =>
      match GetChannel(gw, api, msg.channelID)
      case Failure(e) => Failure(e)
      case Success(source) =>
        match GetChannel(gw, api, id)
        case Failure(e) => Failure(e)
        case Success(target) =>
          if target.kind != GuildText then Failure(Failed(NotATextChannel))
          else if source.guildID != target.guildID then Failure(Failed(ChannelOnDifferentGuild))
          else Success(target)
  }

  /** A channel mention resolved on any guild, with no type or guild check. */
  function GetGlobalChannelFromMention(gw: Gateway, api: Remote, mention: string): (r: Lookup<Channel>)
    ensures MentionID(mention).None? ==> r == Failure(Failed(ChannelNotFound))
    ensures MentionID(mention).Some? ==> r == GetChannel(gw, api, MentionID(mention).value)
  {
    match MentionID(mention)
    case None => Failure(Failed(ChannelNotFound))
    case Some(id) => GetChannel(gw, api, id)
  }

  /** Every channel the guild-bound lookup accepts, the global lookup returns too. */
  lemma GuildBoundMentionIsGlobalMention(gw: Gateway, api: Remote, msg: Message, mention: string)
    requires GetChannelFromMention(gw, api, msg, mention).Success?
    ensures GetGlobalChannelFromMention(gw, api, mention) == GetChannelFromMention(gw, api, msg, mention)
  {
  }
}
