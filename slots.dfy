/**
 * The slot record: an identifier and a start and end timestamp, parsed from
 * one decoded JSON object of the API's answer, compared by identifier only,
 * and rendered for the console and the desktop notification.
 */
module Slots {
  import opened Wrappers
  import opened Calendar
  import opened Timestamp

  /** The opaque identifier the API gives a slot. */
  type SlotId = string

  datatype Slot = Slot(id: SlotId, start: Instant, end: Instant)

  /** One decoded JSON object of the answer, its string fields by key. */
  type Record = map<string, string>

  /**
   * `Slot(data)`: None where the constructor raises (a missing key is a
   * KeyError, a timestamp that does not parse a ValueError).
   */
  function ParseSlot(data: Record): (r: Option<Slot>)
    ensures r.Some? <==>
      && "id" in data && "start" in data && "end" in data
      && ParseTimestamp(data["start"]).Some? && ParseTimestamp(data["end"]).Some?
    ensures r.Some? ==>
      && r.value.id == data["id"]
      && ParseTimestamp(data["start"]) == Some(r.value.start)
      && ParseTimestamp(data["end"]) == Some(r.value.end)
  {
    if "id" !in data || "start" !in data || "end" !in data then None
    else
      match (ParseTimestamp(data["start"]), ParseTimestamp(data["end"]))
      case (Some(start), Some(end)) => Some(Slot(data["id"], start, end))
      case _ => None
  }

  /** The record the API would send for `s`: its timestamps in ISO form, any suffix after them. */
  function ToRecord(s: Slot, startSuffix: string, endSuffix: string): Record {
    map["id" := s.id, "start" := FormatIso(s.start) + startSuffix, "end" := FormatIso(s.end) + endSuffix]
  }

  /** Parsing a record gives back the slot it was written from. */
  lemma ParseToRecord(s: Slot, startSuffix: string, endSuffix: string)
    ensures ParseSlot(ToRecord(s, startSuffix, endSuffix)) == Some(s)
  {
    ParseFormatIso(s.start, startSuffix);
    ParseFormatIso(s.end, endSuffix);
  }

  /** `Slot.__eq__`: two slots are the same slot when their identifiers agree. */
  predicate SameSlot(a: Slot, b: Slot) {
    a.id == b.id
  }

  /** Two slots are the same slot exactly when they differ at most in their timestamps. */
  lemma SameSlotIgnoresTimestamps(a: Slot, b: Slot)
    ensures SameSlot(a, b) <==> a.(start := b.start, end := b.end) == b
  {
  }

  /**
   * Equality looks at the identifier alone: records with the same `id` give
   * the same slot whatever their timestamps, and records with different ids
   * give different slots even when their timestamps agree.
   */
  lemma SameSlotIffSameId(r1: Record, r2: Record, a: Slot, b: Slot)
    requires ParseSlot(r1) == Some(a) && ParseSlot(r2) == Some(b)
    ensures SameSlot(a, b) <==> r1["id"] == r2["id"]
  {
  }

  // ---- display ----

  /** `%H:%M`. */
  function Clock(t: Instant): (c: string)
    ensures |c| == 5
  {
    var h, m := Padded(t.hour, 2), Padded(t.minute, 2);
    [h[0], h[1], ':', m[0], m[1]]
  }

  /** `%d/%m/%Y %H:%M`. */
  function Stamp(t: Instant): (c: string)
    ensures |c| == 16
  {
    var d, mo, y := Padded(t.date.day, 2), Padded(t.date.month, 2), Padded(t.date.year, 4);
    [d[0], d[1], '/', mo[0], mo[1], '/', y[0], y[1], y[2], y[3], ' '] + Clock(t)
  }

  /** The short form is used exactly for a slot that starts and ends today. */
  predicate IsToday(s: Slot, today: Date): (r: bool)
    ensures r <==> s.start.date == today && s.end.date == today
  {
    s.start.date == s.end.date && s.start.date == today
  }

  /** `Slot.__str__`, with the current date as a parameter. */
  function Display(s: Slot, today: Date): (r: string)
    ensures |r| == if IsToday(s, today) then 13 else 35
  {
    if IsToday(s, today) then Clock(s.start) + " - " + Clock(s.end)
    else Stamp(s.start) + " - " + Stamp(s.end)
  }

  /** Reads `HH:MM` back: the hour and the minute. */
  function ReadClock(c: string): Option<(int, int)> {
    if |c| == 5 && AllDigits(c[0..2]) && c[2] == ':' && AllDigits(c[3..5])
    then Some((DigitsValue(c[0..2]), DigitsValue(c[3..5])))
    else None
  }

  /** Reads `DD/MM/YYYY HH:MM` back: the date, the hour and the minute. */
  function ReadStamp(c: string): Option<(Date, int, int)> {
    if |c| == 16 && AllDigits(c[0..2]) && c[2] == '/' && AllDigits(c[3..5]) && c[5] == '/'
       && AllDigits(c[6..10]) && c[10] == ' ' && ReadClock(c[11..]).Some?
    then
      var (h, m) := ReadClock(c[11..]).value;
      Some((Date(DigitsValue(c[6..10]), DigitsValue(c[3..5]), DigitsValue(c[0..2])), h, m))
    else None
  }

  lemma ReadClockOf(t: Instant)
    ensures ReadClock(Clock(t)) == Some((t.hour, t.minute))
  {
    var c := Clock(t);
    assert c[0..2] == Padded(t.hour, 2);
    assert c[3..5] == Padded(t.minute, 2);
    ValueOfPadded(t.hour, 2);
    ValueOfPadded(t.minute, 2);
  }

  lemma ReadStampOf(t: Instant)
    ensures ReadStamp(Stamp(t)) == Some((t.date, t.hour, t.minute))
  {
    var c := Stamp(t);
    assert c[0..2] == Padded(t.date.day, 2);
    assert c[3..5] == Padded(t.date.month, 2);
    assert c[6..10] == Padded(t.date.year, 4);
    assert c[11..] == Clock(t);
    ValueOfPadded(t.date.day, 2);
    ValueOfPadded(t.date.month, 2);
    ValueOfPadded(t.date.year, 4);
    ReadClockOf(t);
  }

  /**
   * What the display tells the reader: for a slot that starts and ends today,
   * the start and end times as `HH:MM - HH:MM`; for any other slot, the start
   * and end date and time as `DD/MM/YYYY HH:MM - DD/MM/YYYY HH:MM`. The fields
   * can be read back from the text, so no two slots with different times
   * display alike.
   */
  lemma DisplayReadsBack(s: Slot, today: Date)
    ensures var r := Display(s, today);
      if IsToday(s, today) then
        && ReadClock(r[..5]) == Some((s.start.hour, s.start.minute))
        && r[5..8] == " - "
        && ReadClock(r[8..]) == Some((s.end.hour, s.end.minute))
      else
        && ReadStamp(r[..16]) == Some((s.start.date, s.start.hour, s.start.minute))
        && r[16..19] == " - "
        && ReadStamp(r[19..]) == Some((s.end.date, s.end.hour, s.end.minute))
  {
    var r := Display(s, today);
    if IsToday(s, today) {
      assert r[..5] == Clock(s.start) && r[8..] == Clock(s.end);
      ReadClockOf(s.start);
      ReadClockOf(s.end);
    } else {
      assert r[..16] == Stamp(s.start) && r[19..] == Stamp(s.end);
      ReadStampOf(s.start);
      ReadStampOf(s.end);
    }
  }
}
