/** One field of a cron expression: its text, what the text denotes, and the parser that fills
    the set of accepted values segment by segment. */
module CronFields {
  import opened Wrappers
  import opened Text

  datatype CronError = EmptySegment | InvalidStep | InvalidRange | InvalidValue | OutOfRange

  /** A finished field. `any` is the lone asterisk; it stores no values. */
  datatype Field = Field(any: bool, values: set<int>) {
    predicate Contains(v: int) {
      any || v in values
    }

    /** What parsing guarantees about a field over the given bounds. */
    predicate WellFormed(min: int, max: int) {
      any || (values != {} && forall v :: v in values ==> min <= v <= max)
    }
  }

  // ---- What a segment means ----

  datatype Segment = Every(step: int) | Range(first: int, last: int) | Single(value: int)

  function ReadSegment(part: string): (r: Result<Segment, CronError>)
    ensures r.Ok? && r.value.Every? ==> 0 < r.value.step <= MAX_INT64
    ensures r.Ok? && r.value.Range? ==> r.value.first <= r.value.last
  {
    var p := TrimSpace(part);
    if p == "" then Err(EmptySegment)
    else if "*/" <= p then
      match Atoi(p[2..])
      case None => Err(InvalidStep)
      case Some(step) => if step <= 0 then Err(InvalidStep) else Ok(Every(step))
    else if '-' in p then
      var ends := Split(p, '-');
      if |ends| != 2 then Err(InvalidRange)
      else
        match (Atoi(ends[0]), Atoi(ends[1]))
        case (Some(first), Some(last)) => if first > last then Err(InvalidRange) else Ok(Range(first, last))
        case _ => Err(InvalidRange)
    else
      match Atoi(p)
      case None => Err(InvalidValue)
      case Some(v) => Ok(Single(v))
  }

  /** The arithmetic progression from `first` by `step`, up to and including `last`. */
  ghost function Progression(first: int, step: int, last: int): set<int>
    requires step > 0
    decreases last - first + step
  {
    if first > last then {} else {first} + Progression(first + step, step, last)
  }

  lemma {:induction false} ProgressionMember(first: int, step: int, last: int, v: int)
    requires step > 0
    ensures v in Progression(first, step, last) <==> v <= last && exists q: nat :: v == first + q * step
    decreases last - first + step
  {
    if first <= last {
      ProgressionMember(first + step, step, last, v);
      if v == first {
        assert v == first + 0 * step;
      }
      if q: nat :| v == first + q * step {
        if q > 0 {
          assert v == first + step + (q - 1) * step;
        }
      }
      if q: nat :| v == first + step + q * step {
        assert v == first + (q + 1) * step;
      }
    } else if q: nat :| v == first + q * step {
      assert q * step >= 0;
    }
  }

  /** Bounds of a field, and whether 7 is another way to write 0 (Sunday). */
  datatype Bounds = Bounds(min: int, max: int, sundaySeven: bool) {
    function Fold(v: int): int {
      if sundaySeven && v == 7 then 0 else v
    }

    predicate Admits(v: int) {
      min <= Fold(v) <= max
    }

    /** The numbers a segment names, before folding. */
    ghost function Named(s: Segment): set<int>
      requires s.Every? ==> s.step > 0
    {
      match s
      case Every(step) => Progression(min, step, max)
      case Range(first, last) => Progression(first, 1, last)
      case Single(value) => {value}
    }

    /** A step so large that the loop counter wraps past the 64-bit maximum is refused. */
    ghost predicate Fits(s: Segment)
      requires s.Every? ==> s.step > 0
    {
      && (s.Every? ==> min + s.step <= MAX_INT64)
      && forall v :: v in Named(s) ==> Admits(v)
    }

    ghost function Denoted(s: Segment): set<int>
      requires s.Every? ==> s.step > 0
    {
      set v | v in Named(s) :: Fold(v)
    }

    /** With `rest` still to be added, everything named before it was admitted and stored. */
    ghost predicate Pending(s: Segment, rest: set<int>, before: set<int>, now: set<int>)
      requires s.Every? ==> s.step > 0
    {
      && rest <= Named(s)
      && (forall v :: v in Named(s) && v !in rest ==> Admits(v))
      && now + (set v | v in rest :: Fold(v)) == before + Denoted(s)
    }

    /** Why a segment is refused, if it is. */
    ghost function Fault(part: string): Option<CronError> {
      match ReadSegment(part)
      case Err(e) => Some(e)
      case Ok(s) => if Fits(s) then None else Some(OutOfRange)
    }

    ghost function PartValues(part: string): set<int> {
      match ReadSegment(part)
      case Err(_) => {}
      case Ok(s) => Denoted(s)
    }

    /** Union of what the segments denote. */
    ghost function Union(parts: seq<string>): set<int> {
      if parts == [] then {} else Union(parts[..|parts| - 1]) + PartValues(parts[|parts| - 1])
    }

    ghost predicate FirstFault(parts: seq<string>, e: CronError) {
      exists k :: 0 <= k < |parts| && Fault(parts[k]) == Some(e) && forall j :: 0 <= j < k ==> Fault(parts[j]) == None
    }

    /** The field an accepted expression stands for. */
    ghost function Meaning(expr: string): Field {
      if TrimSpace(expr) == "*" then Field(true, {}) else Field(false, Union(Segments(expr)))
    }

    ghost predicate Accepts(expr: string) {
      TrimSpace(expr) == "*" || forall p :: p in Segments(expr) ==> Fault(p) == None
    }
  }

  function Segments(expr: string): seq<string> {
    Split(TrimSpace(expr), ',')
  }

  const SECONDS := Bounds(0, 59, false)
  const MINUTES := Bounds(0, 59, false)
  const HOURS := Bounds(0, 23, false)
  const DAYS_OF_MONTH := Bounds(1, 31, false)
  const MONTHS := Bounds(1, 12, false)
  const DAYS_OF_WEEK := Bounds(0, 7, true)

  lemma {:induction false} UnionMember(b: Bounds, parts: seq<string>, v: int)
    ensures v in b.Union(parts) <==> exists p :: p in parts && v in b.PartValues(p)
  {
    if parts == [] {
    } else {
      var front, last := parts[..|parts| - 1], parts[|parts| - 1];
      UnionMember(b, front, v);
      assert parts == front + [last];
    }
  }

  // ---- The parser ----

  /** A field while it is being filled. */
  class FieldBuilder {
    const bounds: Bounds
    var values: set<int>

    constructor (bounds: Bounds)
      ensures this.bounds == bounds && values == {}
    {
      this.bounds := bounds;
      values := {};
    }

    method Add(v: int) returns (ok: bool)
      modifies this
      ensures ok <==> bounds.Admits(v)
      ensures values == if ok then old(values) + {bounds.Fold(v)} else old(values)
    {
      var w := if bounds.sundaySeven && v == 7 then 0 else v;
      if w < bounds.min || w > bounds.max {
        return false;
      }
      values := values + {w};
      return true;
    }

    method AddEvery(step: int) returns (ok: bool)
      requires 0 <= bounds.min <= bounds.max <= 59 && 0 < step <= MAX_INT64
      modifies this
      ensures ok <==> bounds.Fits(Every(step))
      ensures ok ==> values == old(values) + bounds.Denoted(Every(step))
    {
      var i := bounds.min;
      while i <= bounds.max
        invariant i < bounds.min ==> !bounds.Fits(Every(step))
        invariant i > bounds.min ==> bounds.min + step <= MAX_INT64
        invariant bounds.min <= i ==> bounds.Pending(Every(step), Progression(i, step, bounds.max), old(values), values)
        decreases if i < bounds.min then 0 else bounds.max - i + 1
      {
        ok := Add(i);
        if !ok {
          return;
        }
        i := Wrap64(i + step);
      }
      return true;
    }

    method AddRange(first: int, last: int) returns (ok: bool)
      requires 0 <= bounds.min <= bounds.max <= 59 && first <= last
      modifies this
      ensures ok <==> bounds.Fits(Range(first, last))
      ensures ok ==> values == old(values) + bounds.Denoted(Range(first, last))
    {
      var i := first;
      while i <= last
        invariant bounds.Pending(Range(first, last), Progression(i, 1, last), old(values), values)
      {
        ok := Add(i);
        if !ok {
          return;
        }
        i := i + 1;
      }
      return true;
    }

    method AddSegment(s: Segment) returns (ok: bool)
      requires 0 <= bounds.min <= bounds.max <= 59
      requires s.Every? ==> 0 < s.step <= MAX_INT64
      requires s.Range? ==> s.first <= s.last
      modifies this
      ensures ok <==> bounds.Fits(s)
      ensures ok ==> values == old(values) + bounds.Denoted(s)
    {
      match s
      case Every(step) =>
        ok := AddEvery(step);
      case Range(first, last) =>
        ok := AddRange(first, last);
      case Single(v) =>
        ok := Add(v);
        assert bounds.Named(s) == {v};
    }
  }

  /** Accepts exactly the lone asterisk and the lists whose every segment reads and fits; the
      values are the union of the segments, and an error is that of the first bad segment. */
  method ParseField(expr: string, bounds: Bounds) returns (r: Result<Field, CronError>)
    requires 0 <= bounds.min <= bounds.max <= 59
    ensures r.Ok? <==> bounds.Accepts(expr)
    ensures r.Ok? ==> r.value == bounds.Meaning(expr)
    ensures r.Err? ==> TrimSpace(expr) != "*" && bounds.FirstFault(Segments(expr), r.error)
  {
    hide TrimLeft, TrimRight, Split, ReadSegment;
    if TrimSpace(expr) == "*" {
      return Ok(Field(true, {}));
    }
    var f := new FieldBuilder(bounds);
    var parts := Segments(expr);
    for i := 0 to |parts|
      invariant f.values == bounds.Union(parts[..i])
      invariant forall j :: 0 <= j < i ==> bounds.Fault(parts[j]) == None
    {
      assert parts[..i + 1][..i] == parts[..i];
      assert parts[i] in parts;
      var s := ReadSegment(parts[i]);
      if s.Err? {
        return Err(s.error);
      }
      var ok := f.AddSegment(s.value);
      if !ok {
        return Err(OutOfRange);
      }
    }
    assert parts[..|parts|] == parts;
    return Ok(Field(false, f.values));
  }

  /** A named value exists in every segment that reads. */
  lemma SegmentNames(b: Bounds, s: Segment)
    requires b.min <= b.max
    requires s.Every? ==> s.step > 0
    requires s.Range? ==> s.first <= s.last
    ensures b.Denoted(s) != {}
  {
    var v := match s case Every(_) => b.min case Range(first, _) => first case Single(w) => w;
    assert v in b.Named(s);
    assert b.Fold(v) in b.Denoted(s);
  }

  /** An accepted field is the lone asterisk or a non-empty set inside the bounds, and never
      holds a Sunday 7. */
  lemma MeaningIsWellFormed(b: Bounds, expr: string)
    requires b.min <= b.max && b.Accepts(expr)
    ensures b.Meaning(expr).WellFormed(b.min, b.max)
    ensures b.sundaySeven ==> 7 !in b.Meaning(expr).values
  {
    if TrimSpace(expr) != "*" {
      var parts := Segments(expr);
      forall v | v in b.Union(parts)
        ensures b.min <= v <= b.max && (b.sundaySeven ==> v != 7)
      {
        UnionMember(b, parts, v);
        var p :| p in parts && v in b.PartValues(p);
        assert b.Fault(p) == None;
      }
      assert parts[0] in parts && b.Fault(parts[0]) == None;
      SegmentNames(b, ReadSegment(parts[0]).value);
      var v :| v in b.PartValues(parts[0]);
      UnionMember(b, parts, v);
    }
  }

  // ---- Which texts are segments ----

  /** The grammar of a trimmed segment: a step, a range or a value, in unsigned or plus-signed
      decimal numbers. */
  ghost predicate Spells(text: string, s: Segment) {
    match s
    case Every(step) => step > 0 && "*/" <= text && Written(text[2..], step)
    case Range(first, last) => first <= last && exists a, b :: SpellsRange(text, a, b, first, last)
    case Single(value) => Written(text, value)
  }

  ghost predicate SpellsRange(text: string, a: string, b: string, first: int, last: int) {
    text == a + "-" + b && Written(a, first) && Written(b, last)
  }

  /** Nothing written begins like a step. */
  lemma WrittenIsNoStep(text: string, n: int)
    requires Written(text, n)
    ensures text != "" && text[0] != '*'
  {
    assert text[0] in text;
  }

  lemma ReadsStepExactly(text: string, step: int)
    requires "*/" <= text && TrimSpace(text) == text
    ensures ReadSegment(text) == Ok(Every(step)) <==> Spells(text, Every(step))
  {
    hide TrimSpace, Atoi;
    AtoiReadsWritten(text[2..], step);
    if Atoi(text[2..]) == Some(step) && step > 0 {
      PositiveHasNoMinus(text[2..]);
    }
  }

  lemma ReadsRangeExactly(text: string, first: int, last: int)
    requires TrimSpace(text) == text
    ensures ReadSegment(text) == Ok(Range(first, last)) <==> Spells(text, Range(first, last))
  {
    hide TrimSpace, Atoi, Split, Written;
    var ends := Split(text, '-');
    if ReadSegment(text) == Ok(Range(first, last)) {
      SplitInTwo(text, '-', ends[0], ends[1]);
      AtoiReadsWritten(ends[0], first);
      AtoiReadsWritten(ends[1], last);
      assert SpellsRange(text, ends[0], ends[1], first, last);
    }
    if Spells(text, Range(first, last)) {
      var a, b :| SpellsRange(text, a, b, first, last);
      AtoiReadsWritten(a, first);
      AtoiReadsWritten(b, last);
      SplitInTwo(text, '-', a, b);
      WrittenIsNoStep(a, first);
      assert text[0] == a[0] && text[|a|] == '-';
    }
  }

  lemma ReadsValueExactly(text: string, value: int)
    requires TrimSpace(text) == text
    ensures ReadSegment(text) == Ok(Single(value)) <==> Spells(text, Single(value))
  {
    hide TrimSpace, Atoi, Split, Written;
    AtoiReadsWritten(text, value);
    if Written(text, value) {
      WrittenIsNoStep(text, value);
    }
  }

  /** A segment reads exactly as the grammar says. */
  lemma ReadsExactly(part: string, s: Segment)
    ensures ReadSegment(part) == Ok(s) <==> Spells(TrimSpace(part), s)
  {
    hide Spells, Atoi, Split;
    var text := TrimSpace(part);
    TrimTwice(part);
    hide TrimSpace;
    assert ReadSegment(text) == ReadSegment(part);
    match s
    case Every(step) =>
      if "*/" <= text {
        ReadsStepExactly(text, step);
      } else {
        StepsBeginSo(text, step);
      }
    case Range(first, last) => ReadsRangeExactly(text, first, last);
    case Single(value) => ReadsValueExactly(text, value);
  }

  lemma StepsBeginSo(text: string, step: int)
    ensures Spells(text, Every(step)) ==> "*/" <= text
  {
  }

  lemma PartReads(b: Bounds, p: string)
    requires forall s :: ReadSegment(p) == Ok(s) <==> Spells(TrimSpace(p), s)
    ensures b.Fault(p) == None <==> exists s :: Spells(TrimSpace(p), s) && b.Fits(s)
    ensures forall v :: v in b.PartValues(p) <==> exists s :: Spells(TrimSpace(p), s) && v in b.Denoted(s)
  {
    hide ReadSegment, TrimSpace, Written, SpellsRange, Bounds.Fits, Bounds.Denoted;
  }

  /** An accepted field is the lone asterisk or a list of segments of the grammar that fit, and its
      values are those the segments denote. */
  lemma FieldGrammar(b: Bounds, expr: string)
    ensures b.Accepts(expr) <==>
      TrimSpace(expr) == "*"
      || forall p :: p in Segments(expr) ==> exists s :: Spells(TrimSpace(p), s) && b.Fits(s)
    ensures TrimSpace(expr) != "*" ==>
      forall v :: v in b.Meaning(expr).values <==>
        exists p, s :: p in Segments(expr) && Spells(TrimSpace(p), s) && v in b.Denoted(s)
  {
    hide ReadSegment, TrimSpace, Written, SpellsRange, Split, Bounds.Fits, Bounds.Denoted;
    forall p, s
      ensures ReadSegment(p) == Ok(s) <==> Spells(TrimSpace(p), s)
    {
      ReadsExactly(p, s);
    }
    forall p
      ensures b.Fault(p) == None <==> exists s :: Spells(TrimSpace(p), s) && b.Fits(s)
      ensures forall v :: v in b.PartValues(p) <==> exists s :: Spells(TrimSpace(p), s) && v in b.Denoted(s)
    {
      PartReads(b, p);
    }
    if TrimSpace(expr) != "*" {
      forall v
        ensures v in b.Meaning(expr).values <==>
          exists p, s :: p in Segments(expr) && Spells(TrimSpace(p), s) && v in b.Denoted(s)
      {
        UnionMember(b, Segments(expr), v);
      }
    }
  }

  // ---- What a field says, and which fields are accepted, without the parser ----

  /** The value is one a segment of a field over `min` to `max` stands for. */
  ghost predicate InSegment(s: Segment, min: int, max: int, v: int) {
    match s
    case Every(step) => min <= v <= max && exists q: nat :: v == min + q * step
    case Range(first, last) => first <= v <= last
    case Single(value) => v == value
  }

  ghost predicate Says(text: string, min: int, max: int, v: int) {
    || TrimSpace(text) == "*"
    || exists p, s :: p in Split(TrimSpace(text), ',') && Spells(TrimSpace(p), s) && InSegment(s, min, max, v)
  }

  /** Sunday is 0 or 7. */
  ghost predicate SaysWeekday(text: string, v: int) {
    Says(text, 0, 7, v) || (v == 0 && Says(text, 0, 7, 7))
  }

  predicate SegmentWithin(s: Segment, min: int, max: int) {
    match s
    case Every(step) => min + step <= MAX_INT64
    case Range(first, last) => min <= first && last <= max
    case Single(value) => min <= value <= max
  }

  ghost predicate FieldOk(text: string, min: int, max: int) {
    || TrimSpace(text) == "*"
    || forall p :: p in Split(TrimSpace(text), ',') ==>
         exists s :: Spells(TrimSpace(p), s) && SegmentWithin(s, min, max)
  }

  lemma NamedExactly(b: Bounds, s: Segment, v: int)
    requires s.Every? ==> s.step > 0
    ensures v in b.Named(s) <==> InSegment(s, b.min, b.max, v)
  {
    match s
    case Every(step) =>
      ProgressionMember(b.min, step, b.max, v);
      if q: nat :| v == b.min + q * step {
        assert q * step >= 0;
      }
    case Range(first, last) =>
      ProgressionMember(first, 1, last, v);
      if first <= v {
        var q: nat := v - first;
        assert v == first + q * 1;
      }
    case Single(_) =>
  }

  lemma DenotedExactly(b: Bounds, s: Segment, v: int)
    requires s.Every? ==> s.step > 0
    ensures !b.sundaySeven ==> (v in b.Denoted(s) <==> InSegment(s, b.min, b.max, v))
    ensures b.sundaySeven ==>
      (v in b.Denoted(s) <==>
        v != 7 && (InSegment(s, b.min, b.max, v) || (v == 0 && InSegment(s, b.min, b.max, 7))))
  {
    NamedExactly(b, s, v);
    NamedExactly(b, s, 7);
    hide InSegment, Bounds.Named;
  }

  /** An accepted field holds exactly the values its text says. */
  lemma FieldSays(b: Bounds, text: string, v: int)
    ensures !b.sundaySeven ==> (b.Meaning(text).Contains(v) <==> Says(text, b.min, b.max, v))
    ensures b == DAYS_OF_WEEK && v != 7 ==> (b.Meaning(text).Contains(v) <==> SaysWeekday(text, v))
  {
    hide TrimSpace, Written, SpellsRange, Split, InSegment, Bounds.Denoted, Bounds.Accepts;
    FieldGrammar(b, text);
    forall s: Segment, w: int | s.Every? ==> s.step > 0
      ensures !b.sundaySeven ==> (w in b.Denoted(s) <==> InSegment(s, b.min, b.max, w))
      ensures b.sundaySeven ==>
        (w in b.Denoted(s) <==>
          w != 7 && (InSegment(s, b.min, b.max, w) || (w == 0 && InSegment(s, b.min, b.max, 7))))
    {
      DenotedExactly(b, s, w);
    }
  }

  lemma FitsExactly(b: Bounds, text: string, s: Segment)
    requires b.min <= b.max && (b.sundaySeven ==> b.min == 0 && b.max == 7) && Spells(text, s)
    ensures b.Fits(s) <==> SegmentWithin(s, b.min, b.max)
  {
    forall v
      ensures v in b.Named(s) <==> InSegment(s, b.min, b.max, v)
    {
      NamedExactly(b, s, v);
    }
    hide Bounds.Named;
    match s
    case Every(_) =>
    case Range(first, last) =>
      assert first in b.Named(s) && last in b.Named(s);
    case Single(value) =>
      assert value in b.Named(s);
  }

  /** Which texts a field accepts, by its bounds alone. */
  lemma AcceptsExactly(b: Bounds, text: string)
    requires b.min <= b.max && (b.sundaySeven ==> b.min == 0 && b.max == 7)
    ensures b.Accepts(text) <==> FieldOk(text, b.min, b.max)
  {
    hide TrimSpace, Written, SpellsRange, Split, Bounds.Fits, Bounds.Accepts, SegmentWithin;
    FieldGrammar(b, text);
    forall p, s | Spells(TrimSpace(p), s)
      ensures b.Fits(s) <==> SegmentWithin(s, b.min, b.max)
    {
      FitsExactly(b, TrimSpace(p), s);
    }
  }

  // ---- Writing a field and reading it back ----

  /** Segments that can be written without a sign. */
  predicate Writable(s: Segment) {
    match s
    case Every(step) => 0 < step <= MAX_INT64
    case Range(first, last) => 0 <= first <= last <= MAX_INT64
    case Single(value) => 0 <= value <= MAX_INT64
  }

  function Render(s: Segment): string
    requires Writable(s)
  {
    match s
    case Every(step) => "*/" + Itoa(step)
    case Range(first, last) => Itoa(first) + "-" + Itoa(last)
    case Single(value) => Itoa(value)
  }

  function RenderList(ss: seq<Segment>): string
    requires ss != [] && forall s :: s in ss ==> Writable(s)
  {
    Join(seq(|ss|, i requires 0 <= i < |ss| => Render(ss[i])), ',')
  }

  /** A list item: not a lone asterisk, and free of spaces and commas. */
  predicate Plain(p: string) {
    p != "" && p != "*" && forall c :: c in p ==> !IsSpace(c) && c != ','
  }

  lemma RenderIsPlain(s: Segment)
    requires Writable(s)
    ensures Plain(Render(s))
  {
  }

  lemma TrimKeeps(s: string)
    requires forall c :: c in s ==> !IsSpace(c)
    ensures TrimSpace(s) == s
  {
  }

  lemma RenderedSegmentReads(s: Segment)
    requires Writable(s)
    ensures ReadSegment(Render(s)) == Ok(s)
  {
    hide ReadSegment, TrimSpace, Itoa, Written;
    RenderIsPlain(s);
    TrimKeeps(Render(s));
    ReadsExactly(Render(s), s);
    match s
    case Every(step) =>
      ItoaIsWritten(step);
      assert Render(s)[2..] == Itoa(step);
    case Range(first, last) =>
      ItoaIsWritten(first);
      ItoaIsWritten(last);
      assert SpellsRange(Render(s), Itoa(first), Itoa(last), first, last);
    case Single(value) =>
      ItoaIsWritten(value);
  }

  lemma {:induction false} JoinIsPlain(parts: seq<string>)
    requires parts != [] && forall p :: p in parts ==> Plain(p)
    ensures Join(parts, ',') != "*" && forall c :: c in Join(parts, ',') ==> !IsSpace(c)
  {
    assert Plain(parts[0]);
    if |parts| == 1 {
    } else {
      JoinIsPlain(parts[1..]);
    }
  }

  /** A written list is accepted exactly when every segment fits, and then stands for the union
      of what its segments denote. */
  lemma RenderedListMeans(b: Bounds, ss: seq<Segment>)
    requires ss != [] && forall s :: s in ss ==> Writable(s)
    ensures b.Accepts(RenderList(ss)) <==> forall s :: s in ss ==> b.Fits(s)
    ensures !b.Meaning(RenderList(ss)).any
    ensures forall v :: v in b.Meaning(RenderList(ss)).values <==> exists s :: s in ss && v in b.Denoted(s)
  {
    hide ReadSegment, Render, TrimSpace, Split, Itoa;
    var parts := seq(|ss|, i requires 0 <= i < |ss| => Render(ss[i]));
    forall i | 0 <= i < |ss|
      ensures ReadSegment(parts[i]) == Ok(ss[i]) && Plain(parts[i])
    {
      RenderedSegmentReads(ss[i]);
      RenderIsPlain(ss[i]);
    }
    JoinIsPlain(parts);
    TrimKeeps(RenderList(ss));
    SplitOfJoin(parts, ',');
    assert Segments(RenderList(ss)) == parts;
    forall s | s in ss
      ensures exists p :: p in parts && ReadSegment(p) == Ok(s)
    {
      var i :| 0 <= i < |ss| && ss[i] == s;
      assert parts[i] in parts;
    }
    forall v
      ensures v in b.Union(parts) <==> exists s :: s in ss && v in b.Denoted(s)
    {
      UnionMember(b, parts, v);
    }
  }

  /** The largest 64-bit step is fine where counting starts at 0, and wraps the loop counter to a
      refusal where it starts at 1. */
  lemma LargestStep()
    ensures MINUTES.Accepts(RenderList([Every(MAX_INT64)]))
    ensures !DAYS_OF_MONTH.Accepts(RenderList([Every(MAX_INT64)]))
  {
    hide ReadSegment, Render, RenderList, TrimSpace, Bounds.Accepts;
    RenderedListMeans(MINUTES, [Every(MAX_INT64)]);
    RenderedListMeans(DAYS_OF_MONTH, [Every(MAX_INT64)]);
    assert MINUTES.Named(Every(MAX_INT64)) == {0};
    assert MINUTES.Fits(Every(MAX_INT64));
    assert Every(MAX_INT64) in [Every(MAX_INT64)] && !DAYS_OF_MONTH.Fits(Every(MAX_INT64));
  }
}
