/** CDN URLs of user avatars. */
module Avatars {
  import opened Wrappers
  import opened Discord
  import opened Decimal

  type Uint16 = x: int | 0 <= x < 0x1_0000

  const AvatarUrlPrefix: string := "https://cdn.discordapp.com/avatars/"

  predicate IsAnimatedAvatar(avatar: string) {
    |avatar| >= 2 && avatar[..2] == "a_"
  }

  /**
   * The CDN URL of a user's avatar at a size: empty when the user has no
   * avatar, a gif for an animated ("a_") avatar hash and a jpg otherwise.
   */
  function GetAvatarUrlWithSize(user: User, size: Uint16): (url: string)
    ensures url == "" <==> user.avatar == ""
    ensures user.avatar != "" ==>
      var stem := AvatarUrlPrefix + user.id + "/" + user.avatar + ".";
      var ext := if IsAnimatedAvatar(user.avatar) then "gif" else "jpg";
      |url| == |stem| + |ext| + |"?size="| + |FormatDecimal(size)| && url[..|stem|] == stem
  {
    if user.avatar == "" then ""
    else
      var ext := if IsAnimatedAvatar(user.avatar) then "gif" else "jpg";
      AvatarUrlPrefix + user.id + "/" + user.avatar + "." + ext + "?size=" + FormatDecimal(size)
  }

  /** The URL ends in the image type and a size query that parses back to the requested size. */
  lemma AvatarUrlSuffix(user: User, size: Uint16)
    requires user.avatar != ""
    ensures var url := GetAvatarUrlWithSize(user, size);
      var digits := FormatDecimal(size);
      var ext := if IsAnimatedAvatar(user.avatar) then "gif" else "jpg";
      var tail := ext + "?size=" + digits;
      |tail| < |url| && url[|url| - |tail|..] == tail
      && ParseInt64(url[|url| - |digits|..]) == Some(size)
  {
    var url := GetAvatarUrlWithSize(user, size);
    var digits := FormatDecimal(size);
    var ext := if IsAnimatedAvatar(user.avatar) then "gif" else "jpg";
    var head := AvatarUrlPrefix + user.id + "/" + user.avatar + ".";
    var tail := ext + "?size=" + digits;
    assert url == head + tail;
    assert url[|url| - |tail|..] == tail;
    assert url[|url| - |digits|..] == tail[|tail| - |digits|..] == digits;
    ParseFormatRoundTrip(size);
  }

  /** The avatar URL at the default size: the size query is 1024. */
  function GetAvatarUrl(user: User): (url: string)
    ensures url == "" <==> user.avatar == ""
    ensures user.avatar != "" ==> |url| > 10 && url[|url| - 10..] == "?size=1024"
  {
    var url := GetAvatarUrlWithSize(user, 1024);
    assert user.avatar != "" ==> |url| > 10 && url[|url| - 10..] == "?size=1024" by {
      if user.avatar != "" {
        DefaultSizeDigits();
        var ext := if IsAnimatedAvatar(user.avatar) then "gif" else "jpg";
        var head := AvatarUrlPrefix + user.id + "/" + user.avatar + "." + ext;
        assert url == head + "?size=1024";
      }
    }
    url
  }

  lemma DefaultSizeDigits()
    ensures FormatDecimal(1024) == "1024"
  {
    assert DigitChar(1) == '1' && DigitChar(0) == '0' && DigitChar(2) == '2' && DigitChar(4) == '4';
    assert FormatDecimal(1) == "1";
    assert FormatDecimal(10) == FormatDecimal(1) + "0";
    assert FormatDecimal(102) == FormatDecimal(10) + "2";
    assert FormatDecimal(1024) == FormatDecimal(102) + "4";
  }
}
