/**
  The streaming decoder's run over the events of a tree, level by level: what
  each level of the response leaves in the visitor is what the tree says.

  Ends says how a run over some events ends: with the tree's first failure of
  text or nesting, or in a given state. A value in a slot that does not read
  it is Plain: its events add up to one effect on the state, however deep it
  is. Members compose one by one, and each level's lemma says what the state
  knows of the members read so far: the last of a name, and nothing of those
  before it.
*/
module VisitorProof {
  import opened Basics
  import opened Json
  import opened Wire
  import opened Folds
  import opened Machine
  import opened TreeDecode

  // ----- runs as far as the JSON layer lets them -----

  /** Running es from v fails as scan says, or ends in w. */
  predicate Ends(v: V, es: seq<Event>, rawCtl: bool, scan: Option<Reason>, w: V) {
    match scan
    case Some(r) => Run(v, es, rawCtl) == Fail(r)
    case None => Run(v, es, rawCtl) == Ok(w)
  }

  lemma EndsConcat(v: V, a: seq<Event>, w: V, b: seq<Event>, x: V, rawCtl: bool, sa: Option<Reason>, sb: Option<Reason>)
    requires Ends(v, a, rawCtl, sa, w) && Ends(w, b, rawCtl, sb, x)
    ensures Ends(v, a + b, rawCtl, OrElse(sa, sb), x)
  {
    RunConcat(v, a, b, rawCtl);
  }

  /** A container: its first event, its inside and its last event. */
  lemma EndsContainer(v: V, first: Event, w: V, inner: seq<Event>, x: V, last: Event, y: V, rawCtl: bool, scan: Option<Reason>)
    requires Step(v, first, rawCtl) == Ok(w) && Ends(w, inner, rawCtl, scan, x) && Step(x, last, rawCtl) == Ok(y)
    ensures Ends(v, [first] + inner + [last], rawCtl, scan, y)
  {
    RunOne(v, first, rawCtl);
    RunOne(x, last, rawCtl);
    EndsConcat(v, [first], w, inner, x, rawCtl, None, scan);
    EndsConcat(v, [first] + inner, x, [last], y, rawCtl, scan, None);
  }

  /** A member: its key, then its value. */
  lemma EndsMember(v: V, key: string, w: V, value: seq<Event>, x: V, rawCtl: bool, scan: Option<Reason>)
    requires OnKey(v, key) == Ok(w) && Ends(w, value, rawCtl, scan, x)
    ensures Ends(v, [KeyEv(key)] + value, rawCtl, OrElse(CheckString(key, rawCtl), scan), x)
  {
    RunOne(v, KeyEv(key), rawCtl);
    RunConcat(v, [KeyEv(key)], value, rawCtl);
  }

  // ----- values nobody reads -----

  /** Inside a container nobody reads, a value changes nothing but the deepest nesting met. */
  lemma {:induction false} IgnoredValue(v: V, j: Json, rawCtl: bool) returns (w: V)
    requires v.ign > 0
    ensures Ends(v, Events(j), rawCtl, Scan(j, |v.stack| + v.ign, rawCtl), w)
    ensures w == v.(peak := w.peak)
    decreases j, 1
  {
    w := v;
    match j
    case Obj(ms, _) =>
      if |v.stack| + v.ign < MAX_NESTING {
        var a := Begin(v, true).v;
        var b := IgnoredMembers(a, ms, rawCtl);
        w := b.(ign := v.ign);
        EndsContainer(v, ObjectBegin, a, MemberEvents(ms), b, ObjectEnd, w, rawCtl, ScanMembers(ms, |v.stack| + v.ign + 1, rawCtl));
      } else {
        RunConcat(v, [ObjectBegin], MemberEvents(ms) + [ObjectEnd], rawCtl);
        RunOne(v, ObjectBegin, rawCtl);
        assert [ObjectBegin] + (MemberEvents(ms) + [ObjectEnd]) == Events(j);
      }
    case Arr(es, _) =>
      if |v.stack| + v.ign < MAX_NESTING {
        var a := Begin(v, false).v;
        var b := IgnoredElems(a, es, rawCtl);
        w := b.(ign := v.ign);
        EndsContainer(v, ArrayBegin, a, ElemEvents(es), b, ArrayEnd, w, rawCtl, ScanElems(es, |v.stack| + v.ign + 1, rawCtl));
      } else {
        RunConcat(v, [ArrayBegin], ElemEvents(es) + [ArrayEnd], rawCtl);
        RunOne(v, ArrayBegin, rawCtl);
        assert [ArrayBegin] + (ElemEvents(es) + [ArrayEnd]) == Events(j);
      }
    case _ => RunOne(v, Events(j)[0], rawCtl);
  }

  lemma {:induction false} IgnoredMembers(v: V, ms: seq<Member>, rawCtl: bool) returns (w: V)
    requires v.ign > 0
    ensures Ends(v, MemberEvents(ms), rawCtl, ScanMembers(ms, |v.stack| + v.ign, rawCtl), w)
    ensures w == v.(peak := w.peak)
    decreases ms, 0
  {
    w := v;
    if ms != [] {
      var last := ms[|ms| - 1];
      var a := IgnoredMembers(v, ms[..|ms| - 1], rawCtl);
      w := IgnoredValue(a, last.value, rawCtl);
      EndsMember(a, last.key, a, Events(last.value), w, rawCtl, Scan(last.value, |v.stack| + v.ign, rawCtl));
      EndsConcat(v, MemberEvents(ms[..|ms| - 1]), a, [KeyEv(last.key)] + Events(last.value), w, rawCtl,
                 ScanMembers(ms[..|ms| - 1], |v.stack| + v.ign, rawCtl),
                 OrElse(CheckString(last.key, rawCtl), Scan(last.value, |v.stack| + v.ign, rawCtl)));
    }
  }

  lemma {:induction false} IgnoredElems(v: V, es: seq<Json>, rawCtl: bool) returns (w: V)
    requires v.ign > 0
    ensures Ends(v, ElemEvents(es), rawCtl, ScanElems(es, |v.stack| + v.ign, rawCtl), w)
    ensures w == v.(peak := w.peak)
    decreases es, 0
  {
    w := v;
    if es != [] {
      var a := IgnoredElems(v, es[..|es| - 1], rawCtl);
      w := IgnoredValue(a, es[|es| - 1], rawCtl);
      EndsConcat(v, ElemEvents(es[..|es| - 1]), a, Events(es[|es| - 1]), w, rawCtl,
                 ScanElems(es[..|es| - 1], |v.stack| + v.ign, rawCtl), Scan(es[|es| - 1], |v.stack| + v.ign, rawCtl));
    }
  }

  /** The visitor stands where a value is due, outside every container it does not read. */
  predicate Due(v: V) {
    v.ign == 0 && |v.stack| <= MAX_DEPTH && v.slot != SlotRoot
  }

  /** j is no container the visitor would read in slot s. */
  predicate IsPlain(s: Slot, j: Json) {
    !(j.Obj? && Reads(s, true)) && !(j.Arr? && Reads(s, false))
  }

  /** What a value the visitor does not enter does. */
  function Plain(v: V, j: Json): V
    requires Due(v)
  {
    match j
    case Null => OnNull(v).v
    case Bool(_) => Assign(v, None, None)
    case Num(n) => Assign(v, None, Some(n))
    case Str(s, _) => Assign(v, Some(s), None)
    case _ => NextCard(WrongKind(v.(slot := SlotNone), v.slot, true))
  }

  /** What the deepest nesting met and the last ignored slot are changes nothing else. */
  lemma WrongKindFrame(v: V, s: Slot, peak: nat, ignSlot: Slot)
    ensures WrongKind(v.(peak := peak, ignSlot := ignSlot), s, true) == WrongKind(v, s, true).(peak := peak, ignSlot := ignSlot)
  {
  }

  /** The end of a container nobody read. */
  lemma EndIgnored(v: V, b: V)
    requires Due(v) && b == v.(slot := SlotNone, ign := 1, ignSlot := v.slot, peak := b.peak)
    ensures End(b) == Ok(NextCard(WrongKind(v.(slot := SlotNone), v.slot, true)).(peak := b.peak, ignSlot := v.slot))
  {
    WrongKindFrame(v.(slot := SlotNone), v.slot, b.peak, v.slot);
    assert b.(ign := 0) == v.(slot := SlotNone).(peak := b.peak, ignSlot := v.slot);
  }

  lemma PlainScalar(v: V, j: Json, rawCtl: bool)
    requires Due(v) && !j.Obj? && !j.Arr?
    ensures Ends(v, Events(j), rawCtl, TreeDecode.Scan(j, |v.stack|, rawCtl), Plain(v, j))
  {
    RunOne(v, Events(j)[0], rawCtl);
  }

  /** A container that starts in a slot that does not read its kind, and its end. */
  lemma IgnoredContainer(v: V, isObj: bool, inner: seq<Event>, b: V, rawCtl: bool, scan: Option<Reason>) returns (w: V)
    requires Due(v) && !Reads(v.slot, isObj) && Begin(v, isObj).Ok?
    requires Ends(Begin(v, isObj).v, inner, rawCtl, scan, b)
    requires b == v.(slot := SlotNone, ign := 1, ignSlot := v.slot, peak := b.peak)
    ensures Ends(v, [if isObj then ObjectBegin else ArrayBegin] + inner + [if isObj then ObjectEnd else ArrayEnd], rawCtl, scan, w)
    ensures w == NextCard(WrongKind(v.(slot := SlotNone), v.slot, true)).(peak := w.peak, ignSlot := w.ignSlot)
  {
    EndIgnored(v, b);
    w := End(b).v;
    EndsContainer(v, if isObj then ObjectBegin else ArrayBegin, Begin(v, isObj).v, inner, b, if isObj then ObjectEnd else ArrayEnd, w, rawCtl, scan);
  }

  lemma PlainObject(v: V, ms: seq<Member>, raw: Text, rawCtl: bool) returns (w: V)
    requires Due(v) && !Reads(v.slot, true)
    ensures Ends(v, Events(Obj(ms, raw)), rawCtl, TreeDecode.Scan(Obj(ms, raw), |v.stack|, rawCtl), w)
    ensures w == Plain(v, Obj(ms, raw)).(peak := w.peak, ignSlot := w.ignSlot)
  {
    var b := IgnoredMembers(Begin(v, true).v, ms, rawCtl);
    w := IgnoredContainer(v, true, MemberEvents(ms), b, rawCtl, ScanMembers(ms, |v.stack| + 1, rawCtl));
  }

  lemma PlainArray(v: V, es: seq<Json>, raw: Text, rawCtl: bool) returns (w: V)
    requires Due(v) && !Reads(v.slot, false)
    ensures Ends(v, Events(Arr(es, raw)), rawCtl, TreeDecode.Scan(Arr(es, raw), |v.stack|, rawCtl), w)
    ensures w == Plain(v, Arr(es, raw)).(peak := w.peak, ignSlot := w.ignSlot)
  {
    var b := IgnoredElems(Begin(v, false).v, es, rawCtl);
    w := IgnoredContainer(v, false, ElemEvents(es), b, rawCtl, ScanElems(es, |v.stack| + 1, rawCtl));
  }

  lemma PlainValue(v: V, j: Json, rawCtl: bool) returns (w: V)
    requires Due(v) && IsPlain(v.slot, j)
    ensures Ends(v, Events(j), rawCtl, TreeDecode.Scan(j, |v.stack|, rawCtl), w)
    ensures w == Plain(v, j).(peak := w.peak, ignSlot := w.ignSlot)
  {
    match j
    case Obj(ms, raw) => w := PlainObject(v, ms, raw, rawCtl);
    case Arr(es, raw) => w := PlainArray(v, es, raw, rawCtl);
    case _ =>
      w := Plain(v, j);
      PlainScalar(v, j, rawCtl);
  }

  /** The slots of values that are text, or objects the visitor enters: nothing else is stored in them. */
  predicate TextSlot(s: Slot) {
    s == SlotModel || s == SlotType || s == SlotChoice || s == SlotCardName || s == SlotCardDescription || s == SlotCardReleaseDate
  }

  predicate ObjectSlot(s: Slot) {
    s == SlotUsage || s == SlotAnswers || s == SlotAnswer || s == SlotProbs || s == SlotLegend || s == SlotModels
  }

  lemma RefusedScalar(v: V, str: Option<string>, num: Option<Number>)
    requires Due(v) && v.stack != [] && v.stack[|v.stack| - 1] != CtrModels
    requires ObjectSlot(v.slot) || (TextSlot(v.slot) && str.None?)
    ensures Assign(v, str, num) == WrongKind(v.(slot := SlotNone), v.slot, false)
  {
  }

  /** A value of the wrong kind, whatever it is. */
  lemma Refused(v: V, j: Json)
    requires Due(v) && v.stack != [] && v.stack[|v.stack| - 1] != CtrModels
    requires ObjectSlot(v.slot) || (TextSlot(v.slot) && !j.Str?)
    ensures Plain(v, j) == WrongKind(v.(slot := SlotNone), v.slot, j.Obj? || j.Arr?)
  {
    match j
    case Null => RefusedScalar(v, None, None);
    case Bool(_) => RefusedScalar(v, None, None);
    case Num(n) => RefusedScalar(v, None, Some(n));
    case Str(s, _) => RefusedScalar(v, Some(s), None);
    case _ => assert WrongKind(v.(slot := SlotNone), v.slot, true).stack == v.stack;
  }

  /** v stands inside a container c it reads, before a member or the end. */
  predicate Inside(v: V, c: Ctr) {
    v.ign == 0 && v.slot == SlotNone && 0 < |v.stack| <= MAX_DEPTH && v.stack[|v.stack| - 1] == c
  }

  /** The state right after a member's key. */
  function AtKey(v: V, c: Ctr, key: string): V {
    v.(curKey := key, slot := KeySlot(v.mode, c, key))
  }

  /** One member whose value is not entered. */
  lemma PlainMember(v: V, c: Ctr, m: Member, rawCtl: bool) returns (w: V)
    requires Inside(v, c) && IsPlain(KeySlot(v.mode, c, m.key), m.value)
    ensures Ends(v, [KeyEv(m.key)] + Events(m.value), rawCtl,
                 OrElse(CheckString(m.key, rawCtl), Scan(m.value, |v.stack|, rawCtl)), w)
    ensures w == Plain(AtKey(v, c, m.key), m.value).(peak := w.peak, ignSlot := w.ignSlot)
  {
    KeyIsDue(v, c, m.key);
    w := PlainAfter(v, AtKey(v, c, m.key), m.key, m.value, rawCtl);
  }

  lemma KeyIsDue(v: V, c: Ctr, key: string)
    requires Inside(v, c)
    ensures Due(AtKey(v, c, key)) && OnKey(v, key) == Ok(AtKey(v, c, key))
  {
  }

  lemma PlainAfter(v: V, a: V, key: string, j: Json, rawCtl: bool) returns (w: V)
    requires OnKey(v, key) == Ok(a) && Due(a) && a.stack == v.stack && IsPlain(a.slot, j)
    ensures Ends(v, [KeyEv(key)] + Events(j), rawCtl, OrElse(CheckString(key, rawCtl), Scan(j, |v.stack|, rawCtl)), w)
    ensures w == Plain(a, j).(peak := w.peak, ignSlot := w.ignSlot)
  {
    w := PlainValue(a, j, rawCtl);
    EndsMember(v, key, a, Events(j), w, rawCtl, Scan(j, |v.stack|, rawCtl));
  }

  /** One more member after the members ms. */
  lemma EndsMembers(v: V, ms: seq<Member>, a: V, w: V, d: nat, rawCtl: bool)
    requires ms != []
    requires Ends(v, MemberEvents(ms[..|ms| - 1]), rawCtl, ScanMembers(ms[..|ms| - 1], d, rawCtl), a)
    requires Ends(a, [KeyEv(ms[|ms| - 1].key)] + Events(ms[|ms| - 1].value), rawCtl,
                  OrElse(CheckString(ms[|ms| - 1].key, rawCtl), Scan(ms[|ms| - 1].value, d, rawCtl)), w)
    ensures Ends(v, MemberEvents(ms), rawCtl, ScanMembers(ms, d, rawCtl), w)
  {
    var last := ms[|ms| - 1];
    EndsConcat(v, MemberEvents(ms[..|ms| - 1]), a, [KeyEv(last.key)] + Events(last.value), w, rawCtl,
               ScanMembers(ms[..|ms| - 1], d, rawCtl), OrElse(CheckString(last.key, rawCtl), Scan(last.value, d, rawCtl)));
  }

  // ----- probabilities, legends and usage -----

  /** w is x, up to fields the level above does not look at. */
  predicate Like(w: V, x: V) {
    w == x.(peak := w.peak, ignSlot := w.ignSlot, curKey := w.curKey)
  }

  lemma ProbScalar(k: V, num: Option<Number>, str: Option<string>)
    requires Inside(k.(slot := SlotNone), CtrProbs) && k.slot == SlotProbValue
    ensures Assign(k, str, num) == k.(slot := SlotNone, probs := k.probs +
            [if ParseFloat(num).Some? then Pair(k.curKey, ParseFloat(num).value, false) else Pair(k.curKey, 0.0, true)])
  {
  }

  lemma ProbStep(v: V, m: Member)
    requires Inside(v, CtrProbs)
    ensures Plain(AtKey(v, CtrProbs, m.key), m.value) == v.(curKey := m.key, probs := v.probs + [ProbPair(m)])
  {
    var k := AtKey(v, CtrProbs, m.key);
    match m.value
    case Null => ProbScalar(k, None, None);
    case Bool(_) => ProbScalar(k, None, None);
    case Num(n) => ProbScalar(k, Some(n), None);
    case Str(s, _) => ProbScalar(k, None, Some(s));
    case _ => assert k.slot == SlotProbValue;
  }

  lemma LegendScalar(k: V, str: Option<string>, num: Option<Number>)
    requires Inside(k.(slot := SlotNone), CtrLegend) && k.slot == SlotLegendValue
    ensures Assign(k, str, num) == k.(slot := SlotNone, legend := k.legend +
            [Pair(k.curKey, Text(if str.Some? then str.value else ""), str.None?)])
  {
  }

  lemma LegendStep(v: V, m: Member)
    requires Inside(v, CtrLegend)
    ensures Plain(AtKey(v, CtrLegend, m.key), m.value) == v.(curKey := m.key, legend := v.legend + [LegendPair(m, false)])
  {
    var k := AtKey(v, CtrLegend, m.key);
    match m.value
    case Null => LegendScalar(k, None, None);
    case Bool(_) => LegendScalar(k, None, None);
    case Num(n) => LegendScalar(k, None, Some(n));
    case Str(s, _) => LegendScalar(k, Some(s), None);
    case _ => assert k.slot == SlotLegendValue;
  }

  /** A usage member's effect on the usage fields: the member's own count, or none. */
  function UsageSet(top: Top, m: Member): Top {
    if m.key == "input_tokens" then
      top.(usage := top.usage.(input := CountAt([m], "input_tokens")), inBad := !IsCount(m.value))
    else if m.key == "output_tokens" then
      top.(usage := top.usage.(output := CountAt([m], "output_tokens")), outBad := !IsCount(m.value))
    else top
  }

  lemma InputPlain(k: V, m: Member)
    requires Due(k) && k.slot == SlotInputTokens && k.stack != [] && k.stack[|k.stack| - 1] == CtrUsage && m.key == "input_tokens"
    ensures Plain(k, m.value) == k.(slot := SlotNone, top := UsageSet(k.top, m))
  {
    assert Last([m], m.key) == Some(m.value);
  }

  lemma OutputPlain(k: V, m: Member)
    requires Due(k) && k.slot == SlotOutputTokens && k.stack != [] && k.stack[|k.stack| - 1] == CtrUsage && m.key == "output_tokens"
    ensures Plain(k, m.value) == k.(slot := SlotNone, top := UsageSet(k.top, m))
  {
    assert Last([m], m.key) == Some(m.value);
  }

  lemma UsageStep(v: V, m: Member)
    requires Inside(v, CtrUsage)
    ensures Plain(AtKey(v, CtrUsage, m.key), m.value) == v.(curKey := m.key, top := UsageSet(v.top, m))
  {
    var k := AtKey(v, CtrUsage, m.key);
    if m.key == "input_tokens" {
      InputPlain(k, m);
    } else if m.key == "output_tokens" {
      OutputPlain(k, m);
    }
  }

  lemma UsageSets(top: Top, us: seq<Member>)
    requires us != []
    ensures UsageSet(UsageTop(top, us[..|us| - 1]), us[|us| - 1]) == UsageTop(top, us)
  {
    var m := us[|us| - 1];
    assert Last([m], m.key) == Some(m.value);
  }

  lemma {:induction false} ProbsMembers(v: V, ms: seq<Member>, rawCtl: bool) returns (w: V)
    requires Inside(v, CtrProbs)
    ensures Ends(v, MemberEvents(ms), rawCtl, ScanMembers(ms, |v.stack|, rawCtl), w)
    ensures Like(w, v.(probs := v.probs + ProbPairs(ms)))
    decreases |ms|
  {
    w := v;
    if ms != [] {
      var a := ProbsMembers(v, ms[..|ms| - 1], rawCtl);
      w := PlainMember(a, CtrProbs, ms[|ms| - 1], rawCtl);
      ProbStep(a, ms[|ms| - 1]);
      EndsMembers(v, ms, a, w, |v.stack|, rawCtl);
    }
  }

  lemma {:induction false} LegendMembers(v: V, ms: seq<Member>, rawCtl: bool) returns (w: V)
    requires Inside(v, CtrLegend)
    ensures Ends(v, MemberEvents(ms), rawCtl, ScanMembers(ms, |v.stack|, rawCtl), w)
    ensures Like(w, v.(legend := v.legend + LegendPairs(ms, false)))
    decreases |ms|
  {
    w := v;
    if ms != [] {
      var a := LegendMembers(v, ms[..|ms| - 1], rawCtl);
      w := PlainMember(a, CtrLegend, ms[|ms| - 1], rawCtl);
      LegendStep(a, ms[|ms| - 1]);
      EndsMembers(v, ms, a, w, |v.stack|, rawCtl);
    }
  }

  /** The usage fields after the members us of a usage object. */
  function UsageTop(top: Top, us: seq<Member>): Top {
    top.(usage := TreeUsage(us), inBad := CountBad(us, "input_tokens"), outBad := CountBad(us, "output_tokens"))
  }

  lemma UsageMember(a: V, m: Member, rawCtl: bool) returns (w: V)
    requires Inside(a, CtrUsage)
    ensures Ends(a, [KeyEv(m.key)] + Events(m.value), rawCtl, OrElse(CheckString(m.key, rawCtl), Scan(m.value, |a.stack|, rawCtl)), w)
    ensures Like(w, a.(top := UsageSet(a.top, m)))
  {
    w := PlainMember(a, CtrUsage, m, rawCtl);
    UsageStep(a, m);
  }

  lemma {:induction false} UsageMembers(v: V, us: seq<Member>, rawCtl: bool) returns (w: V)
    requires Inside(v, CtrUsage) && v.top.usage == NO_USAGE && !v.top.inBad && !v.top.outBad
    ensures Ends(v, MemberEvents(us), rawCtl, ScanMembers(us, |v.stack|, rawCtl), w)
    ensures Like(w, v.(top := UsageTop(v.top, us)))
    decreases |us|
  {
    w := v;
    if us != [] {
      var a := UsageMembers(v, us[..|us| - 1], rawCtl);
      w := UsageMember(a, us[|us| - 1], rawCtl);
      UsageSets(v.top, us);
      EndsMembers(v, us, a, w, |v.stack|, rawCtl);
    } else {
      UsageStarts(v.top);
    }
  }

  lemma UsageStarts(top: Top)
    requires top.usage == NO_USAGE && !top.inBad && !top.outBad
    ensures UsageTop(top, []) == top
  {
  }

  // ----- one answer -----

  const IN_ANSWERS := [CtrRoot, CtrAnswers]
  const IN_ANSWER := [CtrRoot, CtrAnswers, CtrAnswer]

  /** The scratch holds what a member f of that value means. */
  predicate ValueHolds(w: V, ms: seq<Member>, f: Field) {
    match f
    case FType => w.cur.typ == TextAt(ms, f)
    case FChoice => w.cur.choice == TextAt(ms, f)
    case FNoul => w.cur.noul == FloatAt(ms, f)
    case FConfidence => w.cur.conf == FloatAt(ms, f)
    case FScore => w.cur.score == FloatAt(ms, f)
    case FProbs => w.probs == ProbPairs(ObjectAt(ms, f))
    case FLegend => w.legend == LegendPairs(ObjectAt(ms, f), false)
  }

  /** The scratch knows of member f what the members ms say. */
  predicate FieldHolds(w: V, ms: seq<Member>, f: Field) {
    var last := Last(ms, FieldName(f));
    && (f in w.cur.has <==> last.Some? && RightKind(f, last.value))
    && (f in w.cur.wrong <==> last.Some? && !RightKind(f, last.value))
    && (f in w.cur.has ==> ValueHolds(w, ms, f))
  }

  /** The scratch knows of member f what it knew before. */
  predicate SameField(w: V, a: V, f: Field) {
    && (f in w.cur.has <==> f in a.cur.has)
    && (f in w.cur.wrong <==> f in a.cur.wrong)
    && match f
       case FType => w.cur.typ == a.cur.typ
       case FChoice => w.cur.choice == a.cur.choice
       case FNoul => w.cur.noul == a.cur.noul
       case FConfidence => w.cur.conf == a.cur.conf
       case FScore => w.cur.score == a.cur.score
       case FProbs => w.probs == a.probs
       case FLegend => w.legend == a.legend
  }

  /** w is a, up to the answer being read. */
  predicate LikeAnswer(w: V, a: V) {
    && Like(w, a.(cur := w.cur, probs := w.probs, legend := w.legend))
    && w.cur.name == a.cur.name
  }

  /** The slot of member f in an answer. */
  function FieldSlot(f: Field): Slot {
    match f
    case FType => SlotType
    case FNoul => SlotNoul
    case FChoice => SlotChoice
    case FConfidence => SlotConfidence
    case FScore => SlotScore
    case FProbs => SlotProbs
    case FLegend => SlotLegend
  }

  /** A member f of an answer whose value j is not entered: it decides its own field and no other. */
  function FieldEffect(a: V, f: Field, j: Json): V {
    if !RightKind(f, j) then MemberWrong(a, f)
    else
      match f
      case FType => MemberOK(a.(cur := a.cur.(typ := j.s)), f)
      case FChoice => MemberOK(a.(cur := a.cur.(choice := j.s)), f)
      case FNoul => MemberOK(a.(cur := a.cur.(noul := j.num.value.value)), f)
      case FConfidence => MemberOK(a.(cur := a.cur.(conf := j.num.value.value)), f)
      case FScore => MemberOK(a.(cur := a.cur.(score := j.num.value.value)), f)
      case _ => a
  }

  lemma TextFieldStep(a: V, f: Field, m: Member)
    requires Inside(a, CtrAnswer) && m.key == FieldName(f) && (f == FType || f == FChoice)
    ensures Plain(AtKey(a, CtrAnswer, m.key), m.value) == FieldEffect(a.(curKey := m.key), f, m.value)
  {
    var k := AtKey(a, CtrAnswer, m.key);
    assert k.slot == FieldSlot(f);
    if m.value.Str? {
      TextTaken(k, f, m.value);
    } else {
      Refused(k, m.value);
    }
  }

  lemma TextTaken(k: V, f: Field, j: Json)
    requires Due(k) && k.stack != [] && k.stack[|k.stack| - 1] != CtrModels && k.slot == FieldSlot(f)
    requires (f == FType || f == FChoice) && j.Str?
    ensures Assign(k, Some(j.s), None) == FieldEffect(k.(slot := SlotNone), f, j)
  {
  }

  lemma FloatFieldStep(a: V, f: Field, m: Member)
    requires Inside(a, CtrAnswer) && m.key == FieldName(f) && (f == FNoul || f == FConfidence || f == FScore)
    ensures Plain(AtKey(a, CtrAnswer, m.key), m.value) == FieldEffect(a.(curKey := m.key), f, m.value)
  {
    if IsFloat(m.value) {
      FloatStored(a, f, m);
    } else {
      FloatWrong(a, f, m);
    }
  }

  lemma FloatStored(a: V, f: Field, m: Member)
    requires Inside(a, CtrAnswer) && m.key == FieldName(f) && (f == FNoul || f == FConfidence || f == FScore) && IsFloat(m.value)
    ensures Plain(AtKey(a, CtrAnswer, m.key), m.value) == FieldEffect(a.(curKey := m.key), f, m.value)
  {
    assert KeySlot(a.mode, CtrAnswer, m.key) == FieldSlot(f);
    FloatTaken(AtKey(a, CtrAnswer, m.key), f, m.value.num);
  }

  lemma FloatTaken(k: V, f: Field, n: Number)
    requires Due(k) && k.stack != [] && k.stack[|k.stack| - 1] != CtrModels && k.slot == FieldSlot(f)
    requires (f == FNoul || f == FConfidence || f == FScore) && ParseFloat(Some(n)).Some?
    ensures Assign(k, None, Some(n)) == FieldEffect(k.(slot := SlotNone), f, Num(n))
  {
  }

  lemma FloatRefused(k: V, str: Option<string>, num: Option<Number>)
    requires Due(k) && k.stack != [] && k.stack[|k.stack| - 1] != CtrModels
    requires (k.slot == SlotNoul || k.slot == SlotConfidence || k.slot == SlotScore) && ParseFloat(num).None?
    ensures Assign(k, str, num) == WrongKind(k.(slot := SlotNone), k.slot, false)
  {
  }

  lemma FloatWrong(a: V, f: Field, m: Member)
    requires Inside(a, CtrAnswer) && m.key == FieldName(f) && (f == FNoul || f == FConfidence || f == FScore) && !IsFloat(m.value)
    ensures Plain(AtKey(a, CtrAnswer, m.key), m.value) == MemberWrong(a.(curKey := m.key), f)
  {
    var k := AtKey(a, CtrAnswer, m.key);
    assert k.slot == FieldSlot(f);
    match m.value
    case Null => FloatRefused(k, None, None);
    case Bool(_) => FloatRefused(k, None, None);
    case Num(n) => FloatRefused(k, None, Some(n));
    case Str(s, _) => FloatRefused(k, Some(s), None);
    case _ =>
  }

  lemma ObjectFieldStep(a: V, f: Field, m: Member)
    requires Inside(a, CtrAnswer) && m.key == FieldName(f) && (f == FProbs || f == FLegend) && !m.value.Obj?
    ensures Plain(AtKey(a, CtrAnswer, m.key), m.value) == FieldEffect(a.(curKey := m.key), f, m.value)
  {
    var k := AtKey(a, CtrAnswer, m.key);
    assert k.slot == FieldSlot(f);
    Refused(k, m.value);
  }

  /** What a field's effect leaves known. */
  lemma FieldEffectHolds(a: V, f: Field, m: Member)
    requires m.key == FieldName(f) && !((f == FProbs || f == FLegend) && m.value.Obj?)
    ensures FieldHolds(FieldEffect(a, f, m.value), [m], f)
    ensures forall g :: g != f ==> SameField(FieldEffect(a, f, m.value), a, g)
  {
    assert Last([m], m.key) == Some(m.value);
  }

  /** The members of an answer nobody reads. */
  lemma AnswerIgnoredStep(a: V, m: Member)
    requires Inside(a, CtrAnswer) && FieldCalled(m.key).None?
    ensures Plain(AtKey(a, CtrAnswer, m.key), m.value) == a.(curKey := m.key)
    ensures forall g :: FieldName(g) != m.key
  {
  }

  /** The visitor enters an object in slot s of an answer. */
  lemma EnterInAnswer(v: V, f: Field)
    requires v.ign == 0 && v.stack == IN_ANSWER && v.slot == FieldSlot(f) && (f == FProbs || f == FLegend)
    ensures Begin(v, true).Ok?
    ensures var a := Begin(v, true).v;
            && a.stack == IN_ANSWER + [if f == FProbs then CtrProbs else CtrLegend]
            && a == (if f == FProbs then MemberOK(v, f).(probs := []) else MemberOK(v, f).(legend := []))
               .(slot := SlotNone, stack := a.stack, peak := a.peak)
  {
  }

  /** The visitor leaves it again. */
  lemma LeaveToAnswer(b: V, c: Ctr)
    requires b.ign == 0 && b.stack == IN_ANSWER + [c] && (c == CtrProbs || c == CtrLegend)
    ensures End(b) == Ok(b.(stack := IN_ANSWER))
  {
    assert b.stack[..3] == IN_ANSWER;
  }

  /** A probabilities object in an answer. */
  lemma ProbsValue(v: V, j: Json, rawCtl: bool) returns (w: V)
    requires v.ign == 0 && v.stack == IN_ANSWER && v.slot == SlotProbs && j.Obj?
    ensures Ends(v, Events(j), rawCtl, TreeDecode.Scan(j, |v.stack|, rawCtl), w)
    ensures Like(w, MemberOK(v, FProbs).(slot := SlotNone, probs := ProbPairs(j.members)))
  {
    EnterInAnswer(v, FProbs);
    var a := Begin(v, true).v;
    var b := ProbsMembers(a, j.members, rawCtl);
    LeaveToAnswer(b, CtrProbs);
    w := b.(stack := IN_ANSWER);
    EndsContainer(v, ObjectBegin, a, MemberEvents(j.members), b, ObjectEnd, w, rawCtl, ScanMembers(j.members, 4, rawCtl));
  }

  /** A legend object in an answer. */
  lemma LegendValue(v: V, j: Json, rawCtl: bool) returns (w: V)
    requires v.ign == 0 && v.stack == IN_ANSWER && v.slot == SlotLegend && j.Obj?
    ensures Ends(v, Events(j), rawCtl, TreeDecode.Scan(j, |v.stack|, rawCtl), w)
    ensures Like(w, MemberOK(v, FLegend).(slot := SlotNone, legend := LegendPairs(j.members, false)))
  {
    EnterInAnswer(v, FLegend);
    var a := Begin(v, true).v;
    var b := LegendMembers(a, j.members, rawCtl);
    LeaveToAnswer(b, CtrLegend);
    w := b.(stack := IN_ANSWER);
    EndsContainer(v, ObjectBegin, a, MemberEvents(j.members), b, ObjectEnd, w, rawCtl, ScanMembers(j.members, 4, rawCtl));
  }

  /** The field called key, if there is one. */
  function FieldCalled(key: string): Option<Field> {
    if key == "type" then Some(FType)
    else if key == "noul" then Some(FNoul)
    else if key == "choice" then Some(FChoice)
    else if key == "confidence" then Some(FConfidence)
    else if key == "score" then Some(FScore)
    else if key == "probabilities" then Some(FProbs)
    else if key == "legend" then Some(FLegend)
    else None
  }

  /** w is what a becomes once the member m of an answer is read. */
  predicate AnswerMemberRead(a: V, m: Member, w: V) {
    && LikeAnswer(w, a)
    && forall f :: if FieldName(f) == m.key then FieldHolds(w, [m], f) else SameField(w, a, f)
  }

  lemma AnswerPlainMember(a: V, m: Member, rawCtl: bool) returns (w: V)
    requires Inside(a, CtrAnswer) && a.stack == IN_ANSWER
    requires !((m.key == "probabilities" || m.key == "legend") && m.value.Obj?)
    ensures Ends(a, [KeyEv(m.key)] + Events(m.value), rawCtl,
                 OrElse(CheckString(m.key, rawCtl), TreeDecode.Scan(m.value, 3, rawCtl)), w)
    ensures AnswerMemberRead(a, m, w)
  {
    w := PlainMember(a, CtrAnswer, m, rawCtl);
    AnswerPlainRead(a, m, w);
  }

  lemma AnswerPlainRead(a: V, m: Member, w: V)
    requires Inside(a, CtrAnswer) && a.stack == IN_ANSWER
    requires !((m.key == "probabilities" || m.key == "legend") && m.value.Obj?)
    requires w == Plain(AtKey(a, CtrAnswer, m.key), m.value).(peak := w.peak, ignSlot := w.ignSlot)
    ensures AnswerMemberRead(a, m, w)
  {
    match FieldCalled(m.key)
    case None => IgnoredRead(a, m, w);
    case Some(f) => KnownRead(a, f, m, w);
  }

  lemma IgnoredRead(a: V, m: Member, w: V)
    requires Inside(a, CtrAnswer) && FieldCalled(m.key).None?
    requires w == Plain(AtKey(a, CtrAnswer, m.key), m.value).(peak := w.peak, ignSlot := w.ignSlot)
    ensures AnswerMemberRead(a, m, w)
  {
    AnswerIgnoredStep(a, m);
  }

  lemma KnownRead(a: V, f: Field, m: Member, w: V)
    requires Inside(a, CtrAnswer) && m.key == FieldName(f) && !((f == FProbs || f == FLegend) && m.value.Obj?)
    requires w == Plain(AtKey(a, CtrAnswer, m.key), m.value).(peak := w.peak, ignSlot := w.ignSlot)
    ensures AnswerMemberRead(a, m, w)
  {
    FieldStepEffect(a, f, m);
    FieldEffectRead(a, f, m, w);
  }

  lemma FieldEffectRead(a: V, f: Field, m: Member, w: V)
    requires m.key == FieldName(f) && !((f == FProbs || f == FLegend) && m.value.Obj?)
    requires w == FieldEffect(a.(curKey := m.key), f, m.value).(peak := w.peak, ignSlot := w.ignSlot)
    ensures AnswerMemberRead(a, m, w)
  {
    FieldEffectHolds(a.(curKey := m.key), f, m);
    assert forall g :: FieldName(g) == m.key ==> g == f;
  }

  lemma FieldStepEffect(a: V, f: Field, m: Member)
    requires Inside(a, CtrAnswer) && m.key == FieldName(f) && !((f == FProbs || f == FLegend) && m.value.Obj?)
    ensures Plain(AtKey(a, CtrAnswer, m.key), m.value) == FieldEffect(a.(curKey := m.key), f, m.value)
  {
    if f == FType || f == FChoice {
      TextFieldStep(a, f, m);
    } else if f == FProbs || f == FLegend {
      ObjectFieldStep(a, f, m);
    } else {
      FloatFieldStep(a, f, m);
    }
  }

  lemma AnswerObjectRead(a: V, m: Member, w: V)
    requires Inside(a, CtrAnswer) && m.value.Obj?
    requires
      || (m.key == "probabilities" && Like(w, MemberOK(a, FProbs).(probs := ProbPairs(m.value.members))))
      || (m.key == "legend" && Like(w, MemberOK(a, FLegend).(legend := LegendPairs(m.value.members, false))))
    ensures AnswerMemberRead(a, m, w)
  {
    if m.key == "probabilities" {
      ProbsRead(a, m, w);
    } else {
      LegendRead(a, m, w);
    }
  }

  lemma ProbsRead(a: V, m: Member, w: V)
    requires m.value.Obj? && m.key == FieldName(FProbs) && Like(w, MemberOK(a, FProbs).(probs := ProbPairs(m.value.members)))
    ensures AnswerMemberRead(a, m, w)
  {
    assert Last([m], m.key) == Some(m.value);
  }

  lemma LegendRead(a: V, m: Member, w: V)
    requires m.value.Obj? && m.key == FieldName(FLegend) && Like(w, MemberOK(a, FLegend).(legend := LegendPairs(m.value.members, false)))
    ensures AnswerMemberRead(a, m, w)
  {
    assert Last([m], m.key) == Some(m.value);
  }

  /** One member of an answer. */
  lemma AnswerMember(a: V, m: Member, rawCtl: bool) returns (w: V)
    requires Inside(a, CtrAnswer) && a.stack == IN_ANSWER
    ensures Ends(a, [KeyEv(m.key)] + Events(m.value), rawCtl,
                 OrElse(CheckString(m.key, rawCtl), TreeDecode.Scan(m.value, 3, rawCtl)), w)
    ensures AnswerMemberRead(a, m, w)
  {
    var k := AtKey(a, CtrAnswer, m.key);
    if m.key == "probabilities" && m.value.Obj? {
      w := ProbsValue(k, m.value, rawCtl);
      EndsMember(a, m.key, k, Events(m.value), w, rawCtl, TreeDecode.Scan(m.value, 3, rawCtl));
      AnswerObjectRead(a, m, w);
    } else if m.key == "legend" && m.value.Obj? {
      w := LegendValue(k, m.value, rawCtl);
      EndsMember(a, m.key, k, Events(m.value), w, rawCtl, TreeDecode.Scan(m.value, 3, rawCtl));
      AnswerObjectRead(a, m, w);
    } else {
      w := AnswerPlainMember(a, m, rawCtl);
    }
  }

  lemma FieldStep(w: V, a: V, ms: seq<Member>, f: Field)
    requires ms != [] && FieldHolds(a, ms[..|ms| - 1], f)
    requires if FieldName(f) == ms[|ms| - 1].key then FieldHolds(w, [ms[|ms| - 1]], f) else SameField(w, a, f)
    ensures FieldHolds(w, ms, f)
  {
    var m := ms[|ms| - 1];
    assert Last([m], m.key) == Some(m.value);
  }

  lemma {:induction false} AnswerMembers(v: V, ms: seq<Member>, rawCtl: bool) returns (w: V)
    requires Inside(v, CtrAnswer) && v.stack == IN_ANSWER && v.cur.has == {} && v.cur.wrong == {}
    ensures Ends(v, MemberEvents(ms), rawCtl, ScanMembers(ms, 3, rawCtl), w)
    ensures LikeAnswer(w, v)
    ensures forall f :: FieldHolds(w, ms, f)
    decreases |ms|
  {
    w := v;
    if ms != [] {
      var a := AnswerMembers(v, ms[..|ms| - 1], rawCtl);
      w := AnswerMember(a, ms[|ms| - 1], rawCtl);
      forall f ensures FieldHolds(w, ms, f) {
        FieldStep(w, a, ms, f);
      }
      EndsMembers(v, ms, a, w, 3, rawCtl);
    }
  }

  lemma FailureMatches(w: V, ms: seq<Member>, k: Kind, f: Field)
    requires FieldHolds(w, ms, f)
    ensures MemberFailure(w, k, f) == FieldFailure(w.cur.name, ms, k, f)
    ensures FieldFailure(w.cur.name, ms, k, f).None? ==> ValueHolds(w, ms, f)
  {
  }

  lemma {:induction false} FirstFailureMatches(w: V, ms: seq<Member>, k: Kind, fields: seq<Field>)
    requires forall f :: FieldHolds(w, ms, f)
    ensures FirstMemberFailure(w, k, fields) == FirstFieldFailure(w.cur.name, ms, k, fields)
    ensures FirstFieldFailure(w.cur.name, ms, k, fields).None? ==> forall i :: 0 <= i < |fields| ==> ValueHolds(w, ms, fields[i])
    decreases |fields|
  {
    if fields != [] {
      FailureMatches(w, ms, k, fields[0]);
      FirstFailureMatches(w, ms, k, fields[1..]);
    }
  }

  /** The end of an answer object stores what its members mean. */
  lemma OutcomeMatches(w: V, j: Json)
    requires j.Obj? && forall f :: FieldHolds(w, j.members, f)
    ensures ScratchOutcome(w) == TreeOutcome(w.cur.name, j, false)
  {
    var ms := j.members;
    assert FieldHolds(w, ms, FType);
    var t := Last(ms, "type");
    if t.Some? && t.value.Str? {
      var kind := ParseKind(t.value.s);
      if kind.Some? {
        var k := kind.value;
        FirstFailureMatches(w, ms, k, Schema(k));
        if FirstFieldFailure(w.cur.name, ms, k, Schema(k)).None? {
          AnswerMatches(w, ms, k);
        }
      }
    }
  }

  lemma AnswerMatches(w: V, ms: seq<Member>, k: Kind)
    requires forall i :: 0 <= i < |Schema(k)| ==> ValueHolds(w, ms, Schema(k)[i])
    ensures ScratchAnswer(w, k) == TreeAnswer(ms, k, false)
  {
    match k
    case KindNoul => assert Schema(k)[0] == FNoul;
    case KindChoice =>
      assert Schema(k)[0] == FChoice && Schema(k)[1] == FConfidence && Schema(k)[2] == FProbs;
      ChoiceMatches(w, ms);
    case KindScore =>
      assert Schema(k)[0] == FScore && Schema(k)[1] == FConfidence && Schema(k)[2] == FLegend && Schema(k)[3] == FProbs;
      ScoreMatches(w, ms);
  }

  lemma ChoiceMatches(w: V, ms: seq<Member>)
    requires ValueHolds(w, ms, FChoice) && ValueHolds(w, ms, FConfidence) && ValueHolds(w, ms, FProbs)
    ensures ScratchAnswer(w, KindChoice) == TreeAnswer(ms, KindChoice, false)
  {
  }

  lemma ScoreMatches(w: V, ms: seq<Member>)
    requires ValueHolds(w, ms, FScore) && ValueHolds(w, ms, FConfidence) && ValueHolds(w, ms, FLegend) && ValueHolds(w, ms, FProbs)
    ensures ScratchAnswer(w, KindScore) == TreeAnswer(ms, KindScore, false)
  {
  }
}
