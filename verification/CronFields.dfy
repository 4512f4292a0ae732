/**
 The cron field parser. Splitting on blanks, `,`, `/` and `-`, trimming, upper-casing and
 `parseInt` belong to JavaScript; the parser starts here from the tokens they leave.
 */
module CronFields {
  import opened Wrappers
  import opened Arithmetic

  datatype FieldName = Minute | Hour | DayOfMonth | Month | DayOfWeek

  datatype FieldDef = FieldDef(name: FieldName, min: int, max: int, names: map<string, int>)

  // A trimmed, upper-cased token, with what parseInt makes of it.
  datatype Token = Token(text: string, numeric: Option<int>)

  datatype RangePart = AnyValue | Between(lo: Token, hi: Token) | Single(token: Token)

  // step is None without a slash, Some(None) when what follows the slash is no number.
  // Whole is an empty segment, `*` or `?`.
  datatype Segment = Whole | Part(range: RangePart, step: Option<Option<int>>)

  // Star is the whole field `*` or `?`, the only wildcard.
  datatype FieldText = Star | List(segments: seq<Segment>)

  datatype CronError = BadStep | BadRange | BadValue | OutOfRange | WrongFieldCount

  datatype Field = Field(values: set<int>, isWildcard: bool)

  datatype CronExpr = CronExpr(minute: Field, hour: Field, dayOfMonth: Field, month: Field, dayOfWeek: Field)

  const MONTH_NAMES: map<string, int> :=
    map["JAN" := 1, "FEB" := 2, "MAR" := 3, "APR" := 4, "MAY" := 5, "JUN" := 6,
        "JUL" := 7, "AUG" := 8, "SEP" := 9, "OCT" := 10, "NOV" := 11, "DEC" := 12]

  const DAY_NAMES: map<string, int> :=
    map["SUN" := 0, "MON" := 1, "TUE" := 2, "WED" := 3, "THU" := 4, "FRI" := 5, "SAT" := 6]

  function DefOf(name: FieldName): FieldDef {
    match name
    case Minute => FieldDef(Minute, 0, 59, map[])
    case Hour => FieldDef(Hour, 0, 23, map[])
    case DayOfMonth => FieldDef(DayOfMonth, 1, 31, map[])
    case Month => FieldDef(Month, 1, 12, MONTH_NAMES)
    case DayOfWeek => FieldDef(DayOfWeek, 0, 6, DAY_NAMES)
  }

  function MapDayOfWeek(value: int, def: FieldDef): Result<int, CronError> {
    if def.name == DayOfWeek && value == 7 then Ok(0)
    else if value < def.min || value > def.max then Err(OutOfRange)
    else Ok(value)
  }

  function NormalizeToken(t: Token, def: FieldDef): Result<int, CronError> {
    if t.text in def.names then Ok(def.names[t.text])
    else if t.numeric == None then Err(BadValue)
    else MapDayOfWeek(t.numeric.value, def)
  }

  // The first and last value of a range part.
  function Bounds(range: RangePart, def: FieldDef): Result<(int, int), CronError> {
    match range
    case AnyValue => Ok((def.min, def.max))
    case Between(lo, hi) =>
      (match NormalizeToken(lo, def)
       case Err(e) => Err(e)
       case Ok(first) =>
         match NormalizeToken(hi, def)
         case Err(e) => Err(e)
         case Ok(last) => Ok((first, last)))
    case Single(token) =>
      match NormalizeToken(token, def)
      case Err(e) => Err(e)
      case Ok(v) => Ok((v, v))
  }

  function StepOf(step: Option<Option<int>>): Result<int, CronError> {
    if step == None then Ok(1)
    else if step.value == None || step.value.value <= 0 then Err(BadStep)
    else Ok(step.value.value)
  }

  predicate OnStep(first: int, step: int, v: int)
    requires step > 0
  {
    (v - first) % step == 0
  }

  // Every step-th value from first to last.
  function Stepped(first: int, last: int, step: int): set<int>
    requires step > 0
  {
    set v | first <= v <= last && OnStep(first, step, v)
  }

  function FullSet(def: FieldDef): set<int> {
    Stepped(def.min, def.max, 1)
  }

  /** What one segment means: every step-th value from the first to the last. */
  function SegmentMeaning(s: Segment, def: FieldDef): Result<set<int>, CronError> {
    if s.Whole? then Ok(FullSet(def)) else
    match StepOf(s.step)
    case Err(e) => Err(e)
    case Ok(step) =>
      match Bounds(s.range, def)
      case Err(e) => Err(e)
      case Ok(b) =>
        if b.0 > b.1 then Err(BadRange)
        else Ok(Stepped(b.0, b.1, step))
  }

  // The union of the segments' meanings, or the error of the first bad one.
  function ListMeaning(ss: seq<Segment>, def: FieldDef): Result<set<int>, CronError> {
    if ss == [] then Ok({}) else
    var last := |ss| - 1;
    match ListMeaning(ss[..last], def)
    case Err(e) => Err(e)
    case Ok(vs) =>
      match SegmentMeaning(ss[last], def)
      case Err(e) => Err(e)
      case Ok(ws) => Ok(vs + ws)
  }

  function SegmentsOf(text: FieldText): seq<Segment> {
    if text.Star? then [Whole] else text.segments
  }

  function FieldMeaning(text: FieldText, def: FieldDef): Result<Field, CronError> {
    match ListMeaning(SegmentsOf(text), def)
    case Err(e) => Err(e)
    case Ok(vs) => Ok(Field(if vs == {} then FullSet(def) else vs, text.Star?))
  }

  /** Adds every value of the field's range to the collector. */
  method FillRange(def: FieldDef, collector: set<int>) returns (values: set<int>)
    requires def == DefOf(def.name)
    ensures values == collector + FullSet(def)
  {
    values := collector;
    var v := def.min;
    while v <= def.max
      invariant def.min <= v <= def.max + 1
      invariant values == collector + Stepped(def.min, v - 1, 1)
    {
      var n := MapDayOfWeek(v, def);
      values := values + {n.value};
      v := v + 1;
    }
  }

  // Every step-th value from start to end, one at a time.
  method AddStepped(def: FieldDef, collector: set<int>, start: int, end: int, step: int) returns (values: set<int>)
    requires def == DefOf(def.name) && def.min <= start <= end <= def.max && step > 0
    ensures values == collector + Stepped(start, end, step)
  {
    values := collector;
    var value := start;
    while value <= end
      invariant start <= value && OnStep(start, step, value)
      invariant values == collector + Stepped(start, if value <= end then value - 1 else end, step)
      decreases end - value
    {
      NextOnStep(start, step, value);
      var n := MapDayOfWeek(value, def);
      values := values + {n.value};
      value := value + step;
    }
  }

  /** Adds the values of one segment to the collector. */
  method ExpandSegment(segment: Segment, def: FieldDef, collector: set<int>)
    returns (r: Result<set<int>, CronError>)
    requires def == DefOf(def.name)
    ensures r == match SegmentMeaning(segment, def)
                 case Err(e) => Err(e)
                 case Ok(vs) => Ok(collector + vs)
  {
    var values := collector;
    if segment.Whole? {
      values := FillRange(def, collector);
      return Ok(values);
    }
    var step := StepOf(segment.step);
    if step.Err? { return Err(step.error); }
    var bounds := Bounds(segment.range, def);
    if bounds.Err? { return Err(bounds.error); }
    var (start, end) := bounds.value;
    if start > end { return Err(BadRange); }
    BoundsInRange(segment.range, def);
    values := AddStepped(def, collector, start, end, step.value);
    r := Ok(values);
  }

  lemma {:induction false} BoundsInRange(range: RangePart, def: FieldDef)
    requires def == DefOf(def.name)
    ensures Bounds(range, def).Ok? ==>
              def.min <= Bounds(range, def).value.0 <= def.max && def.min <= Bounds(range, def).value.1 <= def.max
  {
  }

  // After v the next value on the step is v + step.
  lemma {:induction false} NextOnStep(first: int, step: int, v: int)
    requires step > 0 && OnStep(first, step, v)
    ensures OnStep(first, step, v + step)
    ensures forall w {:trigger OnStep(first, step, w)} :: v < w < v + step ==> !OnStep(first, step, w)
  {
    var q := (v - first) / step;
    RemainderUnique(v + step - first, step, q + 1, 0);
    forall w {:trigger OnStep(first, step, w)} | v < w < v + step
      ensures !OnStep(first, step, w)
    {
      RemainderUnique(w - first, step, q, w - v);
    }
  }

  /** Parses one field: its segments left to right into one set of values. */
  method ParseField(text: FieldText, def: FieldDef) returns (r: Result<Field, CronError>)
    requires def == DefOf(def.name)
    ensures r == FieldMeaning(text, def)
  {
    var values: set<int> := {};
    var segments := SegmentsOf(text);
    var i := 0;
    while i < |segments|
      invariant 0 <= i <= |segments|
      invariant ListMeaning(segments[..i], def) == Ok(values)
    {
      assert segments[..i + 1][..i] == segments[..i];
      var e := ExpandSegment(segments[i], def, values);
      if e.Err? {
        assert ListMeaning(segments[..i + 1], def) == Err(e.error);
        ErrorStays(segments, i + 1, def);
        return Err(e.error);
      }
      values := e.value;
      i := i + 1;
    }
    assert segments[..i] == segments;
    if values == {} {
      values := FillRange(def, values);
      assert values == FullSet(def);
    }
    r := Ok(Field(values, text.Star?));
  }

  lemma {:induction false} ErrorStays(ss: seq<Segment>, i: nat, def: FieldDef)
    requires i <= |ss| && ListMeaning(ss[..i], def).Err?
    ensures ListMeaning(ss, def) == ListMeaning(ss[..i], def)
    decreases |ss|
  {
    if i < |ss| {
      assert ss[..|ss| - 1][..i] == ss[..i];
      ErrorStays(ss[..|ss| - 1], i, def);
    } else {
      assert ss[..i] == ss;
    }
  }

  function Meaning(fields: seq<FieldText>): Result<CronExpr, CronError> {
    if |fields| != 5 then Err(WrongFieldCount) else
    match (FieldMeaning(fields[0], DefOf(Minute)), FieldMeaning(fields[1], DefOf(Hour)),
           FieldMeaning(fields[2], DefOf(DayOfMonth)), FieldMeaning(fields[3], DefOf(Month)),
           FieldMeaning(fields[4], DefOf(DayOfWeek)))
    case (Err(e), _, _, _, _) => Err(e)
    case (_, Err(e), _, _, _) => Err(e)
    case (_, _, Err(e), _, _) => Err(e)
    case (_, _, _, Err(e), _) => Err(e)
    case (_, _, _, _, Err(e)) => Err(e)
    case (Ok(a), Ok(b), Ok(c), Ok(d), Ok(f)) => Ok(CronExpr(a, b, c, d, f))
  }

  /** Parses the five fields left to right; the first bad one decides the error. */
  method ParseCronExpression(fields: seq<FieldText>) returns (r: Result<CronExpr, CronError>)
    ensures r == Meaning(fields)
  {
    if |fields| != 5 { return Err(WrongFieldCount); }
    var minute := ParseField(fields[0], DefOf(Minute));
    if minute.Err? { return Err(minute.error); }
    var hour := ParseField(fields[1], DefOf(Hour));
    if hour.Err? { return Err(hour.error); }
    var dayOfMonth := ParseField(fields[2], DefOf(DayOfMonth));
    if dayOfMonth.Err? { return Err(dayOfMonth.error); }
    var month := ParseField(fields[3], DefOf(Month));
    if month.Err? { return Err(month.error); }
    var dayOfWeek := ParseField(fields[4], DefOf(DayOfWeek));
    if dayOfWeek.Err? { return Err(dayOfWeek.error); }
    r := Ok(CronExpr(minute.value, hour.value, dayOfMonth.value, month.value, dayOfWeek.value));
  }

  predicate ValidField(f: Field, def: FieldDef) {
    && f.values != {}
    && f.values <= FullSet(def)
    && (f.isWildcard ==> f.values == FullSet(def))
  }

  // What the search may rely on: no field is empty or holds a value out of its range.
  predicate ValidExpr(e: CronExpr) {
    && ValidField(e.minute, DefOf(Minute))
    && ValidField(e.hour, DefOf(Hour))
    && ValidField(e.dayOfMonth, DefOf(DayOfMonth))
    && ValidField(e.month, DefOf(Month))
    && ValidField(e.dayOfWeek, DefOf(DayOfWeek))
  }

  lemma {:induction false} ListInRange(ss: seq<Segment>, def: FieldDef)
    requires def == DefOf(def.name) && ListMeaning(ss, def).Ok?
    ensures ListMeaning(ss, def).value <= FullSet(def)
    ensures ss != [] ==> ListMeaning(ss, def).value != {}
  {
    if ss != [] {
      var last := |ss| - 1;
      ListInRange(ss[..last], def);
      SegmentInRange(ss[last], def);
    }
  }

  lemma {:induction false} SegmentInRange(s: Segment, def: FieldDef)
    requires def == DefOf(def.name) && SegmentMeaning(s, def).Ok?
    ensures SegmentMeaning(s, def).value <= FullSet(def)
    ensures SegmentMeaning(s, def).value != {}
  {
    if s.Whole? {
      assert OnStep(def.min, 1, def.min) && def.min in SegmentMeaning(s, def).value;
    } else {
      BoundsInRange(s.range, def);
      var b := Bounds(s.range, def).value;
      assert OnStep(b.0, StepOf(s.step).value, b.0) && b.0 in SegmentMeaning(s, def).value;
    }
  }

  lemma {:induction false} FieldIsValid(text: FieldText, def: FieldDef)
    requires def == DefOf(def.name) && FieldMeaning(text, def).Ok?
    ensures ValidField(FieldMeaning(text, def).value, def)
  {
    assert OnStep(def.min, 1, def.min) && def.min in FullSet(def);
    ListInRange(SegmentsOf(text), def);
    if text.Star? {
      assert [Whole][..0] == [] && ListMeaning([Whole], def) == Ok({} + FullSet(def));
    }
  }

  /** Whatever the parser accepts is safe to search: five non-empty sets, each within its range. */
  lemma {:induction false} AcceptedIsValid(fields: seq<FieldText>)
    requires Meaning(fields).Ok?
    ensures ValidExpr(Meaning(fields).value)
  {
    FieldIsValid(fields[0], DefOf(Minute));
    FieldIsValid(fields[1], DefOf(Hour));
    FieldIsValid(fields[2], DefOf(DayOfMonth));
    FieldIsValid(fields[3], DefOf(Month));
    FieldIsValid(fields[4], DefOf(DayOfWeek));
  }

  /** `n/step` names the single value n, whatever the step: it does not run to the end of the range. */
  lemma {:induction false} SteppedSingleIsOneValue(t: Token, step: int, def: FieldDef)
    requires step > 0 && NormalizeToken(t, def).Ok?
    ensures SegmentMeaning(Part(Single(t), Some(Some(step))), def) == Ok({NormalizeToken(t, def).value})
  {
    var v := NormalizeToken(t, def).value;
    assert OnStep(v, step, v);
    assert Stepped(v, v, step) == {v};
  }

  /** A day-of-week range that ends in 7 is accepted exactly when it starts on Sunday, and then means Sunday. */
  lemma {:induction false} RangeEndingInSeven(lo: Token, hi: Token)
    requires hi.text !in DAY_NAMES && hi.numeric == Some(7)
    requires NormalizeToken(lo, DefOf(DayOfWeek)).Ok?
    ensures var r := SegmentMeaning(Part(Between(lo, hi), None), DefOf(DayOfWeek));
            var first := NormalizeToken(lo, DefOf(DayOfWeek)).value;
            r == if first == 0 then Ok({0}) else Err(BadRange)
  {
    var def := DefOf(DayOfWeek);
    BoundsInRange(Between(lo, hi), def);
    assert OnStep(0, 1, 0);
    assert Stepped(0, 0, 1) == {0};
  }

  // ---------------------------------------------------------------- what the texts mean

  const MONTHS_IN_ORDER := ["JAN", "FEB", "MAR", "APR", "MAY", "JUN", "JUL", "AUG", "SEP", "OCT", "NOV", "DEC"]
  const DAYS_IN_ORDER := ["SUN", "MON", "TUE", "WED", "THU", "FRI", "SAT"]

  // The least and the greatest value of each field.
  function RangeOf(name: FieldName): (int, int) {
    match name
    case Minute => (0, 59)
    case Hour => (0, 23)
    case DayOfMonth => (1, 31)
    case Month => (1, 12)
    case DayOfWeek => (0, 6)
  }

  predicate IsName(name: FieldName, text: string) {
    (name == Month && text in MONTHS_IN_ORDER) || (name == DayOfWeek && text in DAYS_IN_ORDER)
  }

  /**
   A token means the month or weekday that it names, months from 1 and weekdays from 0, in the fields for
   these, or else its number, if that is in the field's range; 7 is Sunday.
   */
  lemma {:induction false} TokensMean(name: FieldName, t: Token)
    ensures forall i :: 0 <= i < 12 && t.text == MONTHS_IN_ORDER[i] ==> NormalizeToken(t, DefOf(Month)) == Ok(i + 1)
    ensures forall i :: 0 <= i < 7 && t.text == DAYS_IN_ORDER[i] ==> NormalizeToken(t, DefOf(DayOfWeek)) == Ok(i)
    ensures !IsName(name, t.text) ==>
              NormalizeToken(t, DefOf(name))
              == match t.numeric
                 case None => Err(BadValue)
                 case Some(v) =>
                   if name == DayOfWeek && v == 7 then Ok(0)
                   else if RangeOf(name).0 <= v <= RangeOf(name).1 then Ok(v)
                   else Err(OutOfRange)
  {
  }

  // The ends of a range part, as its tokens give them.
  ghost predicate HasEnds(range: RangePart, name: FieldName, first: int, last: int) {
    match range
    case AnyValue => (first, last) == RangeOf(name)
    case Between(lo, hi) => NormalizeToken(lo, DefOf(name)) == Ok(first) && NormalizeToken(hi, DefOf(name)) == Ok(last)
    case Single(t) => NormalizeToken(t, DefOf(name)) == Ok(first) && last == first
  }

  // The values from the first on, every n-th, up to the last.
  ghost predicate Reaches(first: int, n: int, v: int, last: int) {
    v <= last && exists k: nat :: v == first + k * n
  }

  lemma {:induction false} SteppedReaches(first: int, last: int, n: int, v: int)
    requires n > 0
    ensures v in Stepped(first, last, n) <==> Reaches(first, n, v, last)
  {
    if v in Stepped(first, last, n) {
      var k := (v - first) / n;
      assert OnStep(first, n, v) && v == first + k * n;
      assert k >= 0 by { if k < 0 { MultipleIsFar(k, n); } }
    }
    if Reaches(first, n, v, last) {
      var k: nat :| v == first + k * n;
      RemainderUnique(v - first, n, k, 0);
      MultipleIsFar(k, n);
      assert OnStep(first, n, v);
    }
  }

  /** A segment with a good step and ends in order lists every n-th value from the first up to the last. */
  lemma {:induction false} SegmentListsExactly(
    range: RangePart, step: Option<Option<int>>, name: FieldName, first: int, last: int, v: int)
    requires HasEnds(range, name, first, last) && (step.Some? ==> step.value.Some? && step.value.value > 0)
    ensures var r := SegmentMeaning(Part(range, step), DefOf(name));
            if first > last then r == Err(BadRange)
            else r.Ok? && (v in r.value <==> Reaches(first, if step.Some? then step.value.value else 1, v, last))
  {
    if first <= last {
      SteppedReaches(first, last, if step.Some? then step.value.value else 1, v);
    }
  }

  /** It is refused exactly for a step that is no positive number, a bad token, or ends out of order. */
  lemma {:induction false} SegmentRefusedExactly(range: RangePart, step: Option<Option<int>>, name: FieldName)
    ensures var r := SegmentMeaning(Part(range, step), DefOf(name));
            var badStep := step.Some? && (step.value.None? || step.value.value <= 0);
            && (r == Err(BadStep) <==> badStep)
            && (r.Ok? <==>
                  !badStep && exists first, last :: HasEnds(range, name, first, last) && first <= last)
            && (r == Err(BadRange) <==>
                  !badStep && exists first, last :: HasEnds(range, name, first, last) && first > last)
  {
    var b := Bounds(range, DefOf(name));
    assert forall first, last :: HasEnds(range, name, first, last) <==> b == Ok((first, last));
  }

  /** The whole-range segment lists the field's range. */
  lemma {:induction false} WholeListsTheRange(name: FieldName, v: int)
    ensures v in FullSet(DefOf(name)) <==> RangeOf(name).0 <= v <= RangeOf(name).1
    ensures SegmentMeaning(Whole, DefOf(name)) == Ok(FullSet(DefOf(name)))
  {
    assert OnStep(RangeOf(name).0, 1, v);
  }

  ghost predicate SomeSegmentLists(ss: seq<Segment>, def: FieldDef, v: int) {
    exists s :: s in ss && SegmentMeaning(s, def).Ok? && v in SegmentMeaning(s, def).value
  }

  // The first segment to be refused is refused so.
  ghost predicate FirstRefused(ss: seq<Segment>, def: FieldDef, e: CronError) {
    exists i :: 0 <= i < |ss| && SegmentMeaning(ss[i], def) == Err(e)
                && forall j :: 0 <= j < i ==> SegmentMeaning(ss[j], def).Ok?
  }

  lemma {:induction false} ListIsUnion(ss: seq<Segment>, def: FieldDef)
    ensures match ListMeaning(ss, def)
            case Ok(vs) =>
              && (forall s :: s in ss ==> SegmentMeaning(s, def).Ok?)
              && (forall v :: v in vs <==> SomeSegmentLists(ss, def, v))
            case Err(e) => FirstRefused(ss, def, e)
    decreases |ss|
  {
    if ss != [] {
      var n := |ss| - 1;
      var front := ss[..n];
      ListIsUnion(front, def);
      assert ss == front + [ss[n]];
      if ListMeaning(front, def).Err? {
        var i :| 0 <= i < n && SegmentMeaning(front[i], def) == ListMeaning(front, def)
                 && forall j :: 0 <= j < i ==> SegmentMeaning(front[j], def).Ok?;
        assert SegmentMeaning(ss[i], def) == ListMeaning(ss, def);
      } else if SegmentMeaning(ss[n], def).Err? {
        assert forall j :: 0 <= j < n ==> ss[j] in front;
      } else {
        forall v ensures SomeSegmentLists(ss, def, v)
                         <==> SomeSegmentLists(front, def, v) || v in SegmentMeaning(ss[n], def).value {
          assert ss[n] in ss && forall s :: s in front ==> s in ss;
        }
      }
    }
  }

  /**
   A field lists what its segments list, together, and its whole range without any; only a whole `*` or `?` is
   a wildcard; and its error is that of the first segment to have one.
   */
  lemma {:induction false} FieldListsExactly(text: FieldText, name: FieldName)
    ensures var def := DefOf(name);
            match FieldMeaning(text, def)
            case Err(e) => text.List? && FirstRefused(text.segments, def, e)
            case Ok(f) =>
              && (f.isWildcard <==> text == Star)
              && forall v :: v in f.values <==>
                   if text == Star || text.segments == [] then RangeOf(name).0 <= v <= RangeOf(name).1
                   else SomeSegmentLists(text.segments, def, v)
  {
    var def := DefOf(name);
    ListIsUnion(SegmentsOf(text), def);
    FieldValues(text, name);
  }

  lemma {:induction false} FieldValues(text: FieldText, name: FieldName)
    ensures text == Star ==> FieldMeaning(text, DefOf(name)) == Ok(Field(FullSet(DefOf(name)), true))
    ensures text.List? && text.segments == [] ==>
              FieldMeaning(text, DefOf(name)) == Ok(Field(FullSet(DefOf(name)), false))
    ensures text.List? && text.segments != [] && FieldMeaning(text, DefOf(name)).Ok? ==>
              FieldMeaning(text, DefOf(name)) == Ok(Field(ListMeaning(text.segments, DefOf(name)).value, false))
    ensures forall v :: v in FullSet(DefOf(name)) <==> RangeOf(name).0 <= v <= RangeOf(name).1
  {
    var def := DefOf(name);
    if text == Star {
      assert [Whole][..0] == [] && ListMeaning([Whole], def) == Ok({} + FullSet(def));
      assert {} + FullSet(def) == FullSet(def);
    } else if text.segments != [] && FieldMeaning(text, def).Ok? {
      ListInRange(text.segments, def);
    }
    forall v ensures v in FullSet(def) <==> RangeOf(name).0 <= v <= RangeOf(name).1 {
      WholeListsTheRange(name, v);
    }
  }

  /** The five fields are minute, hour, day of the month, month and weekday; the first bad one decides the error. */
  lemma {:induction false} FieldsInOrder(fields: seq<FieldText>, e: CronExpr)
    ensures Meaning(fields) == Ok(e) <==>
            && |fields| == 5
            && FieldMeaning(fields[0], DefOf(Minute)) == Ok(e.minute)
            && FieldMeaning(fields[1], DefOf(Hour)) == Ok(e.hour)
            && FieldMeaning(fields[2], DefOf(DayOfMonth)) == Ok(e.dayOfMonth)
            && FieldMeaning(fields[3], DefOf(Month)) == Ok(e.month)
            && FieldMeaning(fields[4], DefOf(DayOfWeek)) == Ok(e.dayOfWeek)
    ensures |fields| != 5 ==> Meaning(fields) == Err(WrongFieldCount)
    ensures |fields| == 5 && Meaning(fields).Err? ==>
              exists i :: 0 <= i < 5 && FieldAt(fields, i) == Err(Meaning(fields).error)
                          && forall j :: 0 <= j < i ==> FieldAt(fields, j).Ok?
  {
    if |fields| == 5 && Meaning(fields).Err? {
      var i := if FieldAt(fields, 0).Err? then 0 else if FieldAt(fields, 1).Err? then 1
               else if FieldAt(fields, 2).Err? then 2 else if FieldAt(fields, 3).Err? then 3 else 4;
      assert FieldAt(fields, i) == Err(Meaning(fields).error);
    }
  }

  function FieldAt(fields: seq<FieldText>, i: nat): Result<Field, CronError>
    requires |fields| == 5 && i < 5
  {
    FieldMeaning(fields[i], DefOf([Minute, Hour, DayOfMonth, Month, DayOfWeek][i]))
  }
}
