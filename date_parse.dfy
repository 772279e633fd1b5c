/** `parse_date`, identical in outcome in both harvesters: dateutil's parser
    is a parameter; the model keeps the handling around it (falsy input,
    localising naive results to UTC, converting aware ones, swallowing every
    exception). */
module DateParse {
  import opened Py
  import opened Calendar

  /** A UTC offset strictly inside one day, as `tzinfo.utcoffset` must return. */
  type Offset = o: int | -MicrosPerDay < o < MicrosPerDay

  /** What `dateutil.parser.parse(s)` gives for a string. */
  datatype Parsed =
    | Fails(exc: Exc)                      // the parser raised
    | Naive(wall: Instant)                 // tzinfo is None
    | NoOffset(wall: Instant)              // a tzinfo whose utcoffset() is None
    | Aware(wall: Instant, offset: Offset) // a tzinfo with this offset, in microseconds

  type Dateutil = string -> Parsed

  /** True when the parser's result can be placed on the UTC timeline. */
  predicate Placeable(p: Parsed) {
    match p
    case Naive(_) => true
    case Aware(w, off) => FromMicros(Micros(w) - off).Some?
    case _ => false
  }

  /** `parse_date(v)`: None for a falsy value; for a non-string (the parser
      raises TypeError), for a parser failure, for a tzinfo without offset
      (`pytz.utc.localize` raises ValueError) and for a conversion outside
      Python's range (OverflowError). A naive result is read as UTC; an
      aware one is moved to UTC, keeping its point on the timeline. */
  function ParseDate(v: Json, dateutil: Dateutil): (r: Option<Instant>)
    ensures !Truthy(v) || !v.JStr? ==> r == None
    ensures r.Some? <==> v.JStr? && v.s != [] && Placeable(dateutil(v.s))
    ensures r.Some? && dateutil(v.s).Naive? ==> r.value == dateutil(v.s).wall
    ensures r.Some? && dateutil(v.s).Aware? ==>
      Micros(r.value) == Micros(dateutil(v.s).wall) - dateutil(v.s).offset
  {
    if !Truthy(v) then None
    else
      match v
      case JStr(s) =>
        (match dateutil(s)
         case Fails(_) => None
         case Naive(w) => Some(w)
         case NoOffset(_) => None
         case Aware(w, off) => FromMicros(Micros(w) - off))
      case _ => None
  }

  /** A result that is already in UTC comes back unchanged. */
  lemma ParseUtcUnchanged(s: string, dateutil: Dateutil)
    requires s != [] && dateutil(s).Aware? && dateutil(s).offset == 0
    ensures ParseDate(JStr(s), dateutil) == Some(dateutil(s).wall)
  {
    FromMicrosOfMicros(dateutil(s).wall);
  }
}
