/** The receipt record shared by the in-memory ledger and its file. */
module Receipts {

  const MAX_SUMMARY := 200

  /** `number` is the source's Seq field; `timestamp` 0 stands for Go's zero time. */
  datatype Receipt = Receipt(
    number: nat,
    timestamp: int,
    requestID: string,
    sessionID: string,
    subject: string,
    action: string,
    tool: string,
    risk: string,
    durationMs: int,
    summary: string)

  /** What Append turns a caller's receipt into. */
  function Stamp(r: Receipt, number: nat, now: int): Receipt {
    r.(number := number,
    timestamp := if r.timestamp == 0 then now else r.timestamp,
    summary := if |r.summary| > MAX_SUMMARY then r.summary[..MAX_SUMMARY] else r.summary)
  }

  /** A stamped receipt has its number, its own time or else the current one, and the first 200 characters of the
      caller's summary; nothing else changes, and stamping it again changes nothing. */
  lemma StampFits(r: Receipt, number: nat, now: int, later: int)
    requires now != 0
    ensures var e := Stamp(r, number, now);
            && e.number == number && e.timestamp == (if r.timestamp != 0 then r.timestamp else now)
            && e.summary <= r.summary && |e.summary| == (if |r.summary| < 200 then |r.summary| else 200)
            && e == r.(number := e.number, timestamp := e.timestamp, summary := e.summary)
            && Stamp(e, number, later) == e
  {
  }
}
