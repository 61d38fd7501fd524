/** The parts of `DateUtil` that are logic rather than calendar arithmetic:
    the interval test on millisecond instants, the null/empty guards of the
    string-to-date helpers and the '/' to '-' normalisation of the Excel
    helpers. Pattern parsing (`SimpleDateFormat`) and the end-of-day
    adjustment (`Calendar`) are parameters. */
module DateUtil {
  import opened Results
  import opened Errors
  import Text

  const DateSlashSplit: char := '/'
  const DateHorizontalSplit: char := '-'

  /** The messages of the three null checks: "the current time / the
      start time / the end time must not be empty". */
  const NowMissing: string := "当前时间不能为空"
  const StartMissing: string := "开始时间不能为空"
  const EndMissing: string := "结束时间不能为空"

  /** `isEffectiveDate(nowTime, startTime, endTime)` on `getTime()`
      milliseconds; a null argument throws `IllegalArgumentException`,
      checked in the order now, start, end. */
  function IsEffectiveDate(now: Option<int>, start: Option<int>, end: Option<int>): (r: Result<bool, Thrown>)
    ensures r.Err? <==> now.None? || start.None? || end.None?
    ensures r.Err? ==> r.error.Raw? && r.error.kind == IllegalArgument
    ensures now.None? ==> r == Err(Raw(IllegalArgument, NowMissing))
    ensures now.Some? && start.None? ==> r == Err(Raw(IllegalArgument, StartMissing))
    ensures now.Some? && start.Some? && end.None? ==> r == Err(Raw(IllegalArgument, EndMissing))
  {
    if now.None? then Err(Raw(IllegalArgument, NowMissing))
    else if start.None? then Err(Raw(IllegalArgument, StartMissing))
    else if end.None? then Err(Raw(IllegalArgument, EndMissing))
    else if now.value == start.value || now.value == end.value then Ok(true)
    // `Calendar.after` / `before` compare the same millisecond instants
    else Ok(start.value < now.value && now.value < end.value)
  }

  /** For an ordered interval the test is membership of the closed interval. */
  lemma EffectiveInOrderedInterval(now: int, start: int, end: int)
    requires start <= end
    ensures IsEffectiveDate(Some(now), Some(start), Some(end)) == Ok(start <= now <= end)
  {
  }

  /** For a reversed interval only the two endpoints qualify. */
  lemma EffectiveInReversedInterval(now: int, start: int, end: int)
    requires start > end
    ensures IsEffectiveDate(Some(now), Some(start), Some(end)) == Ok(now == start || now == end)
  {
  }

  /** The `PatternTime` enum. */
  datatype PatternTime =
    | OfYIntoDd | OfYIntoMm | OfYIntoSs | OfYIntoSss | OfYIntoHour | OfYIntoAllSss
  {
    function Pattern(): string {
      match this
      case OfYIntoDd => "yyyy-MM-dd"
      case OfYIntoMm => "yyyy-MM-dd HH:mm"
      case OfYIntoSs => "yyyy-MM-dd HH:mm:ss"
      case OfYIntoSss => "yyyy-MM-dd HH:mm:ss:SSS"
      case OfYIntoHour => "HH:mm"
      case OfYIntoAllSss => "yyyyMMddHHmmssSSS"
    }
  }

  /** `new SimpleDateFormat(pattern).parse(text)`: an instant, or None for a
      `ParseException`. */
  type Parser = (string, string) -> Option<int>

  /** `parseDate(str, time)`: null for a null string; a null pattern with a
      string throws (`time.getPattern()`). */
  function ParseDate(str: Option<string>, time: Option<PatternTime>, parse: Parser): (r: Result<Option<int>, Thrown>)
    ensures str.None? ==> r == Ok(None)
    ensures str.Some? && time.None? ==> r.Err? && r.error.Raw? && r.error.kind == NullPointer
    ensures str.Some? && time.Some? ==> r == Ok(parse(str.value, time.value.Pattern()))
  {
    if str.None? then Ok(None)
    else if time.None? then Err(Raw(NullPointer, "time"))
    else Ok(parse(str.value, time.value.Pattern()))
  }

  /** `stringToDate(str, patternTime)`: null for an empty string or a null pattern. */
  function StringToDate(str: Option<string>, patternTime: Option<PatternTime>, parse: Parser): (r: Option<int>)
    ensures Text.IsEmpty(str) || patternTime.None? ==> r.None?
    ensures !Text.IsEmpty(str) && patternTime.Some? ==> r == parse(str.value, patternTime.value.Pattern())
  {
    if Text.IsEmpty(str) || patternTime.None? then None
    else parse(str.value, patternTime.value.Pattern())
  }

  /** `str.replaceAll("/", "-")`, done only when `str.contains("/")`. */
  function NormaliseSlashes(str: string): (r: string)
    ensures |r| == |str|
    ensures DateSlashSplit !in r
    ensures forall i :: 0 <= i < |str| && str[i] != DateSlashSplit ==> r[i] == str[i]
    ensures forall i :: 0 <= i < |str| && str[i] == DateSlashSplit ==> r[i] == DateHorizontalSplit
  {
    if DateSlashSplit in str then Text.ReplaceChar(str, DateSlashSplit, DateHorizontalSplit) else str
  }

  /** A string without '/' passes through unchanged, and normalising twice
      is normalising once. */
  lemma NormaliseSlashesFixpoint(str: string)
    ensures DateSlashSplit !in str ==> NormaliseSlashes(str) == str
    ensures NormaliseSlashes(NormaliseSlashes(str)) == NormaliseSlashes(str)
  {
  }

  /** `excelStringToDateBegin(str, patternTime)`. */
  function ExcelStringToDateBegin(str: Option<string>, patternTime: Option<PatternTime>, parse: Parser): (r: Option<int>)
    ensures Text.IsEmpty(str) || patternTime.None? ==> r.None?
    ensures !Text.IsEmpty(str) && patternTime.Some? ==>
              r == parse(NormaliseSlashes(str.value), patternTime.value.Pattern())
  {
    if Text.IsEmpty(str) || patternTime.None? then None
    else parse(NormaliseSlashes(str.value), patternTime.value.Pattern())
  }

  /** `excelStringToDateEnd(str, patternTime)`: the parsed instant moved to
      23:59:59 of its day by `dayEnd` (`getDateEnd`). */
  function ExcelStringToDateEnd(str: Option<string>, patternTime: Option<PatternTime>, parse: Parser,
                                dayEnd: int -> int): (r: Option<int>)
    ensures Text.IsEmpty(str) || patternTime.None? ==> r.None?
    ensures !Text.IsEmpty(str) && patternTime.Some? ==>
              r == match parse(NormaliseSlashes(str.value), patternTime.value.Pattern())
                   case None => None
                   case Some(instant) => Some(dayEnd(instant))
  {
    if Text.IsEmpty(str) || patternTime.None? then None
    else match parse(NormaliseSlashes(str.value), patternTime.value.Pattern())
      case None => None
      case Some(instant) => Some(dayEnd(instant))
  }

  /** The Excel helper reads a string exactly as the plain helper reads its
      normalised form. */
  lemma ExcelReadsSlashesAsDashes(str: Option<string>, patternTime: Option<PatternTime>, parse: Parser)
    ensures ExcelStringToDateBegin(str, patternTime, parse)
            == StringToDate(if str.None? then None else Some(NormaliseSlashes(str.value)), patternTime, parse)
  {
  }
}
