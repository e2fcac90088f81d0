/**
 * `get_slots`: the request window computed from the current date, and the
 * classification of the API's answer into the list of slots or one of the
 * named failures.
 */
module Fetch {
  import opened Wrappers
  import opened Calendar
  import opened Slots

  /** The three failures `get_slots` raises as `SlotException`. */
  datatype SlotError = ProjectNotFound | InvalidToken | UnknownError

  /**
   * The text of each `SlotException`, as printed to the console: the common
   * lead `Could not get slots (`, then a reason whose first letter names the
   * failure, then a closing parenthesis.
   */
  function Message(e: SlotError): (m: string)
    ensures |m| > 22 && m[..21] == "Could not get slots (" && m[|m| - 1] == ')'
    ensures m[21] == match e case ProjectNotFound => 'P' case InvalidToken => 'I' case UnknownError => 'U'
  {
    match e
    case ProjectNotFound => "Could not get slots (Project not found)"
    case InvalidToken => "Could not get slots (Invalid session token)"
    case UnknownError => "Could not get slots (Unknown error)"
  }

  lemma MessagesDistinct(a: SlotError, b: SlotError)
    ensures Message(a) == Message(b) <==> a == b
  {
    if a != b {
      assert Message(a)[27] != Message(b)[27];
    }
  }

  /** The body of the HTTP answer: not JSON at all, or decoded into a list of objects. */
  datatype Body = Undecodable | Records(items: seq<Record>)

  datatype Response = Response(status: int, body: Body)

  /**
   * What a call to `get_slots` comes to: the parsed slots, a `SlotException`
   * the polling loop catches, or any other exception (a body that is not
   * JSON, a record without some key, a timestamp that does not parse, a
   * window past the calendar's end), which nothing catches and which ends
   * the program.
   */
  datatype Outcome = Fetched(slots: seq<Slot>) | Failed(error: SlotError) | Aborted

  /** Applies `parse` to every item, in order; None as soon as one item fails. */
  function ParseEach<A, B>(parse: A -> Option<B>, items: seq<A>): (r: Option<seq<B>>)
    ensures r.Some? <==> forall i :: 0 <= i < |items| ==> parse(items[i]).Some?
    ensures r.Some? ==> |r.value| == |items|
    ensures r.Some? ==> forall i :: 0 <= i < |items| ==> parse(items[i]) == Some(r.value[i])
  {
    if items == [] then Some([])
    else
      var tail := items[1..];
      assert forall i :: 1 <= i < |items| ==> items[i] == tail[i - 1];
      match (parse(items[0]), ParseEach(parse, tail))
      case (Some(x), Some(rest)) => Some([x] + rest)
      case _ => None
  }

  /** The slot list of a 200 answer: every decoded record made a slot, in order, or None at the first that fails. */
  function ParseAll(items: seq<Record>): (r: Option<seq<Slot>>)
    ensures r.Some? <==> forall i :: 0 <= i < |items| ==> ParseSlot(items[i]).Some?
    ensures r.Some? ==> |r.value| == |items|
    ensures r.Some? ==> forall i :: 0 <= i < |items| ==> ParseSlot(items[i]) == Some(r.value[i])
  {
    ParseEach(ParseSlot, items)
  }

  /**
   * The status check of `get_slots`. The body is decoded before the status
   * is looked at, so a body that is not JSON aborts whatever the status;
   * 200 is the only success.
   */
  function Classify(response: Response): (r: Outcome)
    ensures response.body.Undecodable? ==> r == Aborted
    ensures response.body.Records? ==>
      match response.status
      case 200 => r == (match ParseAll(response.body.items)
                        case Some(slots) => Fetched(slots)
                        case None => Aborted)
      case 404 => r == Failed(ProjectNotFound)
      case 401 => r == Failed(InvalidToken)
      case _ => r == Failed(UnknownError)
  {
    match response.body
    case Undecodable => Aborted
    case Records(items) =>
      if response.status == 200 then
        match ParseAll(items)
        case Some(slots) => Fetched(slots)
        case None => Aborted
      else if response.status == 404 then Failed(ProjectNotFound)
      else if response.status == 401 then Failed(InvalidToken)
      else Failed(UnknownError)
  }

  /**
   * A successful answer is exactly the list of slots its records describe:
   * the same length as the list of records, in the records' order, with no
   * record dropped or merged; an empty list is a success with no slots.
   */
  lemma {:induction false} ClassifyRoundTrip(slots: seq<Slot>, suffix: string)
    ensures Classify(Response(200, Records(ToRecords(slots, suffix)))) == Fetched(slots)
  {
    RecordsParse(slots, suffix);
  }

  /** The records the API would send for `slots`. */
  function ToRecords(slots: seq<Slot>, suffix: string): (rs: seq<Record>)
    ensures |rs| == |slots|
  {
    if slots == [] then [] else [ToRecord(slots[0], suffix, suffix)] + ToRecords(slots[1..], suffix)
  }

  lemma {:induction false} RecordsParse(slots: seq<Slot>, suffix: string)
    ensures ParseAll(ToRecords(slots, suffix)) == Some(slots)
  {
    if slots != [] {
      var head := ToRecord(slots[0], suffix, suffix);
      var tail := ToRecords(slots[1..], suffix);
      assert ToRecords(slots, suffix) == [head] + tail;
      ParseToRecord(slots[0], suffix, suffix);
      RecordsParse(slots[1..], suffix);
      ParseAllCons(head, tail, slots[0], slots[1..]);
      assert [slots[0]] + slots[1..] == slots;
    }
  }

  lemma ParseAllCons(head: Record, tail: seq<Record>, s: Slot, rest: seq<Slot>)
    requires ParseSlot(head) == Some(s) && ParseAll(tail) == Some(rest)
    ensures ParseAll([head] + tail) == Some([s] + rest)
  {
    assert ([head] + tail)[1..] == tail;
  }

  /** Any status other than 200 is a failure the loop catches, and never a list of slots. */
  lemma FailureStatuses(status: int, items: seq<Record>)
    requires status != 200
    ensures Classify(Response(status, Records(items))).Failed?
    ensures Classify(Response(status, Records(items))).error == ProjectNotFound <==> status == 404
    ensures Classify(Response(status, Records(items))).error == InvalidToken <==> status == 401
  {
  }

  /** The query's date range: from today to `nb_days` days later. */
  datatype Window = Window(start: Date, end: Date)

  /** The request window: from today to `nbDays` days after today; None where the end date overflows the calendar. */
  function RequestWindow(today: Date, nbDays: int): (w: Option<Window>)
    requires ValidDate(today)
    ensures w.Some? <==> 1 <= Ordinal(today) + nbDays <= MaxOrdinal
    ensures w.Some? ==> w.value.start == today && ValidDate(w.value.end)
    ensures w.Some? ==> Ordinal(w.value.end) == Ordinal(today) + nbDays
  {
    match AddDays(today, nbDays)
    case None => None
    case Some(end) => Some(Window(today, end))
  }

  /**
   * `get_slots(config)`: the API is a parameter (`server`) that answers a
   * request for a window; the answer is then classified.
   */
  function GetSlots(today: Date, nbDays: int, server: Window -> Response): (r: Outcome)
    requires ValidDate(today)
    ensures !(1 <= Ordinal(today) + nbDays <= MaxOrdinal) ==> r == Aborted
    ensures 1 <= Ordinal(today) + nbDays <= MaxOrdinal ==>
      exists w :: RequestWindow(today, nbDays) == Some(w) && r == Classify(server(w))
  {
    match RequestWindow(today, nbDays)
    case None => Aborted
    case Some(w) => Classify(server(w))
  }
}
