/** Shelf-life status derived on every load (`fetchDoces`): each row's expiry date, taken at
    local midnight, is compared with the current time, with a seven-day warning window.
    Times are integer milliseconds; turning 'YYYY-MM-DD' text into a midnight timestamp is
    the host's date parser, passed in as `midnight` (None when the text does not parse). */
module Expiry {
  import opened Wrappers
  import opened Records

  const DayMs: int := 24 * 60 * 60 * 1000
  const SevenDaysMs: int := 7 * DayMs

  /** Status of a batch whose expiry date starts at `expiry`, at time `now`. */
  function Classify(expiry: int, now: int): (s: Status)
    ensures s == Expired <==> expiry < now
    ensures s == ExpiringSoon <==> now <= expiry <= now + 604_800_000
    ensures s == Available <==> now + 604_800_000 < expiry
  {
    if expiry < now then Expired
    else if expiry - now <= SevenDaysMs then ExpiringSoon
    else Available
  }

  /** Status of a batch whose expiry text parsed to `expiry`. An unparsable date is an
      invalid Date whose every comparison is false, so it falls through to 'Disponível'. */
  function ClassifyDate(expiry: Option<int>, now: int): (s: Status)
    ensures expiry.None? ==> s == Available
    ensures expiry.Some? ==> s == Classify(expiry.value, now)
  {
    match expiry
    case None => Available
    case Some(e) => Classify(e, now)
  }

  /** How far along its shelf life a batch is. */
  function Severity(s: Status): nat
  {
    match s
    case Available => 0
    case ExpiringSoon => 1
    case Expired => 2
  }

  /** A batch that expires later is never in a worse state. */
  lemma LaterExpiryNoWorse(e1: int, e2: int, now: int)
    requires e1 <= e2
    ensures Severity(Classify(e2, now)) <= Severity(Classify(e1, now))
  {
  }

  /** As time passes a batch's status can only get worse. */
  lemma PassingTimeOnlyWorsens(expiry: int, n1: int, n2: int)
    requires n1 <= n2
    ensures Severity(Classify(expiry, n1)) <= Severity(Classify(expiry, n2))
  {
  }

  /** Only the distance between expiry and now matters. */
  lemma ClassifyShift(expiry: int, now: int, k: int)
    ensures Classify(expiry + k, now + k) == Classify(expiry, now)
  {
  }

  /** Both ends of the warning window are inside it; one millisecond outside either end is not. */
  lemma WindowBoundaries(now: int)
    ensures Classify(now - 1, now) == Expired
    ensures Classify(now, now) == ExpiringSoon
    ensures Classify(now + SevenDaysMs, now) == ExpiringSoon
    ensures Classify(now + SevenDaysMs + 1, now) == Available
  {
  }

  /** A batch expiring today is expired once the day has started; one expiring in three days
      is expiring soon; one expiring in thirty days is available. */
  lemma DayScenarios(today: int, now: int)
    requires today < now < today + DayMs
    ensures Classify(today, now) == Expired
    ensures Classify(today + 3 * DayMs, now) == ExpiringSoon
    ensures Classify(today + 30 * DayMs, now) == Available
  {
  }

  /** The status a row gets on load. */
  function StatusOf(d: Item, now: int, midnight: string -> Option<int>): Status
  {
    ClassifyDate(midnight(d.dataValidade), now)
  }

  /** `data.map(doce => ({ ...doce, status }))`: same rows in the same order, each with its
      stored status replaced by the derived one. */
  function Annotate(rows: seq<Item>, now: int, midnight: string -> Option<int>): (r: seq<Item>)
    ensures |r| == |rows|
    ensures forall i :: 0 <= i < |rows| ==> r[i].(status := rows[i].status) == rows[i]
    ensures forall i :: 0 <= i < |rows| ==> r[i].status == StatusLabel(StatusOf(rows[i], now, midnight))
  {
    if rows == [] then []
    else [rows[0].(status := StatusLabel(StatusOf(rows[0], now, midnight)))] + Annotate(rows[1..], now, midnight)
  }

  /** The stored status is never trusted: rows that differ only in it annotate alike. */
  lemma AnnotateIgnoresStoredStatus(rows: seq<Item>, other: seq<Item>, now: int, midnight: string -> Option<int>)
    requires |rows| == |other|
    requires forall i :: 0 <= i < |rows| ==> rows[i].(status := other[i].status) == other[i]
    ensures Annotate(rows, now, midnight) == Annotate(other, now, midnight)
  {
    var a, b := Annotate(rows, now, midnight), Annotate(other, now, midnight);
    forall i | 0 <= i < |rows|
      ensures a[i] == b[i]
    {
      assert rows[i].dataValidade == other[i].dataValidade;
    }
  }

  /** Re-annotating at the same time changes nothing. */
  lemma AnnotateIdempotent(rows: seq<Item>, now: int, midnight: string -> Option<int>)
    ensures Annotate(Annotate(rows, now, midnight), now, midnight) == Annotate(rows, now, midnight)
  {
    AnnotateIgnoresStoredStatus(Annotate(rows, now, midnight), rows, now, midnight);
  }

  /** After a load every row carries one of the three labels. */
  lemma AnnotateLabels(rows: seq<Item>, now: int, midnight: string -> Option<int>)
    ensures forall i :: 0 <= i < |rows| ==> IsStatusLabel(Annotate(rows, now, midnight)[i].status)
  {
  }
}
