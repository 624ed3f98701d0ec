/** The timestamps the edit pass writes: the configured date, the wall-clock time of the edit
    and the fixed offset "-03:00". */
module Dates {
  import opened Text
  import opened AccessKey

  type Hour = h: nat | h < 24
  type Minute = m: nat | m < 60
  type Second = s: nat | s < 60

  /** `datetime.now()` as `strftime("%H:%M:%S")` reads it; the clock is a parameter of the model. */
  datatype TimeOfDay = TimeOfDay(hour: Hour, minute: Minute, second: Second)

  const Offset := "-03:00"

  /** `date.strftime(f'%Y-%m-%dT{now:%H:%M:%S}-03:00')`. */
  function Timestamp(d: Date, t: TimeOfDay): string
  {
    Pad4(d.year) + "-" + Pad2(d.month) + "-" + Pad2(d.day) + "T" +
    Pad2(t.hour) + ":" + Pad2(t.minute) + ":" + Pad2(t.second) + Offset
  }

  /** `date.strftime('%y')`: the year within its century, two digits. */
  function ShortYear(d: Date): (r: string)
    ensures |r| == 2 && AllDigits(r) && DigitsValue(r) == d.year % 100
  {
    Pad2(d.year % 100)
  }

  /** A timestamp is 25 characters in the fixed layout YYYY-MM-DDThh:mm:ss-03:00, and each
      numeric field reads back as the date or time it came from. */
  lemma TimestampReadBack(d: Date, t: TimeOfDay)
    ensures var r := Timestamp(d, t);
      && |r| == 25
      && r[4] == '-' && r[7] == '-' && r[10] == 'T' && r[13] == ':' && r[16] == ':' && r[19..] == Offset
      && AllDigits(r[..4]) && DigitsValue(r[..4]) == d.year
      && AllDigits(r[5..7]) && DigitsValue(r[5..7]) == d.month
      && AllDigits(r[8..10]) && DigitsValue(r[8..10]) == d.day
      && AllDigits(r[11..13]) && DigitsValue(r[11..13]) == t.hour
      && AllDigits(r[14..16]) && DigitsValue(r[14..16]) == t.minute
      && AllDigits(r[17..19]) && DigitsValue(r[17..19]) == t.second
  {
    var r := Timestamp(d, t);
    assert r[..4] == Pad4(d.year);
    assert r[5..7] == Pad2(d.month);
    assert r[8..10] == Pad2(d.day);
    assert r[11..13] == Pad2(t.hour);
    assert r[14..16] == Pad2(t.minute);
    assert r[17..19] == Pad2(t.second);
  }
}
