/** Creation time of a snowflake ID. */
module Snowflake {
  import opened Wrappers
  import opened Decimal

  /** Milliseconds from the Unix epoch to the first second of 2015. */
  const DiscordEpoch: int := 1420070400000
  const TimestampShift: nat := 0x40_0000   // 2^22: `>> 22`

  /** Go's `/` on int64 truncates toward zero (Dafny's is Euclidean). */
  function TruncDiv(a: int, b: int): int
    requires b > 0
  {
    if a >= 0 then a / b else -((-a) / b)
  }

  /**
   * time.Unix(((id >> 22) + DISCORD_EPOCH) / 1000, 0) as Unix seconds. Go's
   * `>>` on int64 is an arithmetic shift, i.e. floor division, which is
   * Dafny's `/` for a positive divisor. None stands for the panic that
   * Relax raises when strconv.ParseInt fails.
   */
  function GetTimeFromSnowflake(id: string): (t: Option<int>)
    ensures t.Some? <==> ParseInt64(id).Some?
  {
    match ParseInt64(id)
    case None => None
    case Some(v) => Some(TruncDiv(v / TimestampShift + DiscordEpoch, 1000))
  }

  lemma TruncDivMonotone(a: int, b: int)
    requires a <= b
    ensures TruncDiv(a, 1000) <= TruncDiv(b, 1000)
  {
  }

  /** Snowflakes are time-ordered: a larger ID never has an earlier creation time. */
  lemma SnowflakeTimeMonotone(a: string, b: string)
    requires ParseInt64(a).Some? && ParseInt64(b).Some?
    requires ParseInt64(a).value <= ParseInt64(b).value
    ensures GetTimeFromSnowflake(a).value <= GetTimeFromSnowflake(b).value
  {
    var x, y := ParseInt64(a).value, ParseInt64(b).value;
    assert x / TimestampShift <= y / TimestampShift;
    TruncDivMonotone(x / TimestampShift + DiscordEpoch, y / TimestampShift + DiscordEpoch);
  }

  /**
   * An ID minted at Unix millisecond `ms` (its timestamp in the bits above
   * the low 22) gives back the second `ms` falls in.
   */
  lemma SnowflakeRoundTrip(ms: int, low: nat)
    requires ms >= DiscordEpoch && low < TimestampShift
    requires (ms - DiscordEpoch) * TimestampShift + low <= Int64Max
    ensures GetTimeFromSnowflake(FormatDecimal((ms - DiscordEpoch) * TimestampShift + low)) == Some(ms / 1000)
  {
    var v := (ms - DiscordEpoch) * TimestampShift + low;
    ParseFormatRoundTrip(v);
    assert v / TimestampShift == ms - DiscordEpoch;
  }
}
