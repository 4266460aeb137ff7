/** `parse_date` and the freshness rule built on it. Instants are whole
    seconds; `strptime` for one format and the `dateutil` fallback are outside
    the model and enter as functions whose outcomes are given. */
module Dates {
  import opened Wrappers
  import opened Text
  import opened PyValues

  /** The four `strptime` formats, in the order they are tried. */
  datatype DateFormat =
    | HttpDate    // '%a, %d %b %Y %H:%M:%S %Z'
    | PlainDate   // '%Y-%m-%d'
    | IsoLocal    // '%Y-%m-%dT%H:%M:%S'
    | IsoUtc      // '%Y-%m-%dT%H:%M:%SZ'

  const Formats: seq<DateFormat> := [HttpDate, PlainDate, IsoLocal, IsoUtc]

  /** What one `datetime.strptime(text, fmt).timestamp()` attempt does: give an
      instant, raise `ValueError` (the loop moves on to the next format), or
      raise any other exception, which leaves the loop and the fallback
      behind and lands in the outer handler. */
  datatype Attempt = Parsed(instant: int) | Mismatch | Aborted

  /** `strptime` for one format, and `dateutil.parser.parse(text).timestamp()`,
      where `None` is any raised exception. */
  datatype Parsers = Parsers(strptime: (string, DateFormat) -> Attempt, fallback: string -> Option<int>)

  /** The format loop: the first attempt in `fmts` that does not end in
      `ValueError` decides; `Mismatch` when every format does. */
  function FirstMatch(text: string, fmts: seq<DateFormat>, strptime: (string, DateFormat) -> Attempt): Attempt
  {
    if fmts == [] then Mismatch
    else if !strptime(text, fmts[0]).Mismatch? then strptime(text, fmts[0])
    else FirstMatch(text, fmts[1..], strptime)
  }

  /** The loop ends in `o` (an instant or another exception) exactly when `o`
      is the outcome of the earliest format that does not raise `ValueError`,
      and it falls through exactly when every format does. */
  lemma {:induction false} FirstMatchIsEarliest(text: string, fmts: seq<DateFormat>, strptime: (string, DateFormat) -> Attempt, o: Attempt)
    requires !o.Mismatch?
    ensures FirstMatch(text, fmts, strptime) == o <==>
      exists k :: 0 <= k < |fmts| && strptime(text, fmts[k]) == o
        && forall j :: 0 <= j < k ==> strptime(text, fmts[j]).Mismatch?
    ensures FirstMatch(text, fmts, strptime).Mismatch? <==>
      forall k :: 0 <= k < |fmts| ==> strptime(text, fmts[k]).Mismatch?
  {
    if fmts != [] {
      FirstMatchIsEarliest(text, fmts[1..], strptime, o);
      if strptime(text, fmts[0]).Mismatch? {
        if FirstMatch(text, fmts, strptime) == o {
          var k :| 0 <= k < |fmts[1..]| && strptime(text, fmts[1..][k]) == o
            && forall j :: 0 <= j < k ==> strptime(text, fmts[1..][j]).Mismatch?;
          assert forall j :: 0 <= j < k + 1 ==> strptime(text, fmts[j]).Mismatch? by {
            forall j | 0 <= j < k + 1 ensures strptime(text, fmts[j]).Mismatch? {
              if j > 0 { assert fmts[j] == fmts[1..][j - 1]; }
            }
          }
          assert strptime(text, fmts[k + 1]) == o;
        }
        if exists k :: 0 <= k < |fmts| && strptime(text, fmts[k]) == o
            && forall j :: 0 <= j < k ==> strptime(text, fmts[j]).Mismatch? {
          var k :| 0 <= k < |fmts| && strptime(text, fmts[k]) == o
            && forall j :: 0 <= j < k ==> strptime(text, fmts[j]).Mismatch?;
          assert k > 0;
          assert strptime(text, fmts[1..][k - 1]) == o;
          assert forall j :: 0 <= j < k - 1 ==> strptime(text, fmts[1..][j]).Mismatch? by {
            forall j | 0 <= j < k - 1 ensures strptime(text, fmts[1..][j]).Mismatch? {
              assert fmts[1..][j] == fmts[j + 1];
            }
          }
        }
        if forall k :: 0 <= k < |fmts| ==> strptime(text, fmts[k]).Mismatch? {
          forall k | 0 <= k < |fmts[1..]| ensures strptime(text, fmts[1..][k]).Mismatch? {
            assert fmts[1..][k] == fmts[k + 1];
          }
        }
        if FirstMatch(text, fmts, strptime).Mismatch? {
          forall k | 0 <= k < |fmts| ensures strptime(text, fmts[k]).Mismatch? {
            if k > 0 { assert fmts[k] == fmts[1..][k - 1]; }
          }
        }
      }
    }
  }

  /** `parse_date(value)`: the stripped text is tried against the four formats
      in order; only when every one raises `ValueError` does the fallback
      parser see the unstripped text. Any other exception, a failing fallback,
      and a value that is not a string all end in 0. */
  function ParseDate(value: Value, p: Parsers): int
  {
    match value
    case Str(text) =>
      (match FirstMatch(Strip(text), Formats, p.strptime)
       case Parsed(t) => t
       case Aborted => 0
       case Mismatch =>
         (match p.fallback(text)
          case Some(t) => t
          case None => 0))
    case _ => 0
  }

  /** The earliest format that does not raise `ValueError` decides: if it
      parses, its instant is the result; if it raises anything else, the
      result is 0. Later formats and the fallback are not consulted. */
  lemma ParseDateEarliestFormat(text: string, p: Parsers, k: nat)
    requires k < |Formats| && !p.strptime(Strip(text), Formats[k]).Mismatch?
    requires forall j :: 0 <= j < k ==> p.strptime(Strip(text), Formats[j]).Mismatch?
    ensures p.strptime(Strip(text), Formats[k]).Parsed? ==>
      ParseDate(Str(text), p) == p.strptime(Strip(text), Formats[k]).instant
    ensures p.strptime(Strip(text), Formats[k]).Aborted? ==> ParseDate(Str(text), p) == 0
  {
    var o := p.strptime(Strip(text), Formats[k]);
    FirstMatchIsEarliest(Strip(text), Formats, p.strptime, o);
    assert FirstMatch(Strip(text), Formats, p.strptime) == o;
  }

  /** Only when all four formats raise `ValueError` does the fallback parser
      run, on the unstripped text; if it fails too the instant is the epoch. */
  lemma ParseDateFallback(text: string, p: Parsers)
    requires forall k :: 0 <= k < |Formats| ==> p.strptime(Strip(text), Formats[k]).Mismatch?
    ensures p.fallback(text).Some? ==> ParseDate(Str(text), p) == p.fallback(text).value
    ensures p.fallback(text).None? ==> ParseDate(Str(text), p) == 0
  {
    FirstMatchIsEarliest(Strip(text), Formats, p.strptime, Aborted);
  }

  /** The skip rule: the stored marker is up to date only if its instant is
      strictly later than the manifest's export date. */
  predicate UpToDate(marker: string, exportDate: Value, p: Parsers)
  {
    ParseDate(Str(marker), p) > ParseDate(exportDate, p)
  }

  /** Equal instants are stale: the bias is towards downloading again. */
  lemma StaleWhenEqual(marker: string, exportDate: Value, p: Parsers)
    requires ParseDate(Str(marker), p) == ParseDate(exportDate, p)
    ensures !UpToDate(marker, exportDate, p)
  {
  }

  /** A marker that no format parses and the fallback rejects stands for the
      epoch, so it is stale against every export date at or after the epoch,
      including an export date that is itself unparseable (0 > 0 fails). */
  lemma UnparseableMarkerIsStale(marker: string, exportDate: Value, p: Parsers)
    requires forall k :: 0 <= k < |Formats| ==> !p.strptime(Strip(marker), Formats[k]).Parsed?
    requires p.fallback(marker).None?
    requires ParseDate(exportDate, p) >= 0
    ensures !UpToDate(marker, exportDate, p)
  {
    var m := FirstMatch(Strip(marker), Formats, p.strptime);
    if m.Parsed? {
      FirstMatchIsEarliest(Strip(marker), Formats, p.strptime, m);
      assert false;
    }
    assert ParseDate(Str(marker), p) == 0;
  }
}
