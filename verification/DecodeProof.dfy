/**
  The answer set, the model list and the top level of a streamed decode, and
  the theorem that the whole run decides what the tree says.

  An answer object starts and ends with the scratch; what the scratch holds
  in between is VisitorProof's. AnswerObject commits one, AnswersMembers all
  of them, RootMembers the whole root.
*/
module DecodeProof {
  import opened Basics
  import opened Json
  import opened Wire
  import opened Folds
  import opened Machine
  import opened TreeDecode
  import opened VisitorProof

  // ----- the answer set -----

  lemma {:induction false} FindNamed(entries: seq<Entry>, names: seq<string>, name: string)
    requires |entries| == |names|
    requires forall i :: 0 <= i < |names| ==> entries[i].name == names[i]
    requires forall a, b :: 0 <= a < b < |names| ==> names[a] != names[b]
    ensures Find(entries, name) < 0 <==> name !in names
    ensures forall i :: 0 <= i < |names| && names[i] == name ==> Find(entries, name) == i
  {
  }

  /** Storing answers as they end, a repeated name in its first place, leaves what the tree says. */
  lemma AnswersGrow(ms: seq<Member>)
    requires ms != []
    ensures TreeAnswers(ms, false) ==
            Put(TreeAnswers(ms[..|ms| - 1], false), Entry(ms[|ms| - 1].key, TreeOutcome(ms[|ms| - 1].key, ms[|ms| - 1].value, false)))
  {
    var init, last := ms[..|ms| - 1], ms[|ms| - 1];
    var names := Names(init);
    NamesDistinct(init);
    var es := TreeAnswers(init, false);
    FindNamed(es, names, last.key);
    var e := Entry(last.key, TreeOutcome(last.key, last.value, false));
    var r := Put(es, e);
    forall i | 0 <= i < |Names(ms)|
      ensures |r| == |Names(ms)| && r[i] == Entry(Names(ms)[i], TreeOutcome(Names(ms)[i], LastOr(ms, Names(ms)[i]), false))
    {
      if Names(ms)[i] == last.key {
        assert LastOr(ms, last.key) == last.value;
      } else {
        assert LastOr(ms, Names(ms)[i]) == LastOr(init, Names(ms)[i]);
      }
    }
    assert r == TreeAnswers(ms, false);
  }

  /** w is x, up to everything an answer leaves behind in the scratch. */
  predicate LikeRoot(w: V, x: V) {
    Like(w, x.(cur := w.cur, probs := w.probs, legend := w.legend))
  }

  lemma EnterAnswer(v: V)
    requires v.ign == 0 && v.stack == IN_ANSWERS && v.slot == SlotAnswer
    ensures Begin(v, true) ==
            Ok(v.(slot := SlotNone, peak := Max(v.peak, 3), cur := EMPTY_SCRATCH.(name := v.curKey), stack := IN_ANSWER))
  {
  }

  lemma LeaveAnswer(b: V)
    requires b.ign == 0 && b.stack == IN_ANSWER
    ensures End(b) == Ok(b.(stack := IN_ANSWERS, entries := Put(b.entries, Entry(b.cur.name, ScratchOutcome(b)))))
  {
    assert b.stack[..2] == IN_ANSWERS;
    SameScratch(b, IN_ANSWERS);
  }

  lemma SameScratch(b: V, stack: seq<Ctr>)
    ensures ScratchOutcome(b.(stack := stack)) == ScratchOutcome(b)
  {
    match ParseKind(b.cur.typ)
    case None =>
    case Some(k) => SameFailure(b, stack, k, Schema(k));
  }

  lemma {:induction false} SameFailure(b: V, stack: seq<Ctr>, k: Kind, fields: seq<Field>)
    ensures FirstMemberFailure(b.(stack := stack), k, fields) == FirstMemberFailure(b, k, fields)
    decreases |fields|
  {
    if fields != [] {
      SameFailure(b, stack, k, fields[1..]);
    }
  }

  lemma AnswerObject(v: V, j: Json, rawCtl: bool) returns (w: V)
    requires v.ign == 0 && v.stack == IN_ANSWERS && v.slot == SlotAnswer && j.Obj?
    ensures Ends(v, Events(j), rawCtl, TreeDecode.Scan(j, 2, rawCtl), w)
    ensures LikeRoot(w, v.(slot := SlotNone, entries := Put(v.entries, Entry(v.curKey, TreeOutcome(v.curKey, j, false)))))
  {
    EnterAnswer(v);
    var a := Begin(v, true).v;
    var b := AnswerMembers(a, j.members, rawCtl);
    OutcomeMatches(b, j);
    LeaveAnswer(b);
    w := End(b).v;
    EndsContainer(v, ObjectBegin, a, MemberEvents(j.members), b, ObjectEnd, w, rawCtl, ScanMembers(j.members, 3, rawCtl));
  }

  /** One member of the answers object. */
  lemma AnswersMember(a: V, m: Member, rawCtl: bool) returns (w: V)
    requires Inside(a, CtrAnswers) && a.stack == IN_ANSWERS
    ensures Ends(a, [KeyEv(m.key)] + Events(m.value), rawCtl,
                 OrElse(CheckString(m.key, rawCtl), TreeDecode.Scan(m.value, 2, rawCtl)), w)
    ensures LikeRoot(w, a.(entries := Put(a.entries, Entry(m.key, TreeOutcome(m.key, m.value, false)))))
  {
    if m.value.Obj? {
      var k := AtKey(a, CtrAnswers, m.key);
      w := AnswerObject(k, m.value, rawCtl);
      EndsMember(a, m.key, k, Events(m.value), w, rawCtl, TreeDecode.Scan(m.value, 2, rawCtl));
    } else {
      w := PlainMember(a, CtrAnswers, m, rawCtl);
      NonObjectAnswer(a, m);
    }
  }

  lemma NonObjectAnswer(a: V, m: Member)
    requires Inside(a, CtrAnswers) && !m.value.Obj?
    ensures Plain(AtKey(a, CtrAnswers, m.key), m.value) ==
            a.(curKey := m.key, entries := Put(a.entries, Entry(m.key, Failed(AnswerFailure(m.key, "type", NotObject)))))
  {
    VisitorProof.Refused(AtKey(a, CtrAnswers, m.key), m.value);
  }

  lemma {:induction false} AnswersMembers(v: V, ms: seq<Member>, rawCtl: bool) returns (w: V)
    requires Inside(v, CtrAnswers) && v.stack == IN_ANSWERS && v.entries == []
    ensures Ends(v, MemberEvents(ms), rawCtl, ScanMembers(ms, 2, rawCtl), w)
    ensures LikeRoot(w, v.(entries := TreeAnswers(ms, false)))
    decreases |ms|
  {
    w := v;
    if ms != [] {
      var a := AnswersMembers(v, ms[..|ms| - 1], rawCtl);
      w := AnswersMember(a, ms[|ms| - 1], rawCtl);
      AnswersGrow(ms);
      EndsMembers(v, ms, a, w, 2, rawCtl);
    }
  }

  // ----- the model list -----

  const IN_MODELS := [CtrRoot, CtrModels]
  const IN_CARD := [CtrRoot, CtrModels, CtrCard]

  /** The scratch card knows of member f what the members ms say. */
  predicate CardHolds(c: Cards, ms: seq<Member>, f: CardField) {
    var last := Last(ms, CardFieldName(f));
    && (f in c.has <==> last.Some? && last.value.Str?)
    && (f in c.bad <==> last.Some? && !last.value.Str?)
    && (f in c.has ==> CardValue(c.card, f) == CardText(ms, f))
  }

  function CardValue(card: ModelCard, f: CardField): string {
    match f
    case CName => card.name
    case CDescription => card.description
    case CReleaseDate => card.releaseDate
  }

  function CardFieldCalled(key: string): Option<CardField> {
    if key == "name" then Some(CName)
    else if key == "description" then Some(CDescription)
    else if key == "release_date" then Some(CReleaseDate)
    else None
  }

  /** A card member's effect. */
  function CardEffect(c: Cards, m: Member): Cards {
    match CardFieldCalled(m.key)
    case None => c
    case Some(f) =>
      if m.value.Str? then
        var card := match f
          case CName => c.card.(name := m.value.s)
          case CDescription => c.card.(description := m.value.s)
          case CReleaseDate => c.card.(releaseDate := m.value.s);
        c.(card := card, has := c.has + {f}, bad := c.bad - {f})
      else c.(bad := c.bad + {f}, has := c.has - {f})
  }

  lemma CardStep(a: V, m: Member)
    requires Inside(a, CtrCard)
    ensures Plain(AtKey(a, CtrCard, m.key), m.value) == a.(curKey := m.key, cards := CardEffect(a.cards, m))
    ensures IsPlain(KeySlot(a.mode, CtrCard, m.key), m.value)
  {
    if m.value.Str? {
      CardTextStep(a, m);
    } else {
      CardWrongStep(a, m);
    }
  }

  lemma CardTextStep(a: V, m: Member)
    requires Inside(a, CtrCard) && m.value.Str?
    ensures Plain(AtKey(a, CtrCard, m.key), m.value) == a.(curKey := m.key, cards := CardEffect(a.cards, m))
  {
  }

  lemma CardWrongStep(a: V, m: Member)
    requires Inside(a, CtrCard) && !m.value.Str?
    ensures Plain(AtKey(a, CtrCard, m.key), m.value) == a.(curKey := m.key, cards := CardEffect(a.cards, m))
  {
    var k := AtKey(a, CtrCard, m.key);
    match CardFieldCalled(m.key)
    case None => IgnoredStep(a, CtrCard, m);
    case Some(f) =>
      VisitorProof.Refused(k, m.value);
      CardRefused(a.(curKey := m.key), k.slot, f, m.value.Obj? || m.value.Arr?);
  }

  lemma CardRefused(v: V, s: Slot, f: CardField, container: bool)
    requires s == match f case CName => SlotCardName case CDescription => SlotCardDescription case CReleaseDate => SlotCardReleaseDate
    ensures WrongKind(v, s, container) == v.(cards := v.cards.(bad := v.cards.bad + {f}, has := v.cards.has - {f}))
  {
  }

  /** A member nobody reads changes nothing. */
  lemma IgnoredStep(a: V, c: Ctr, m: Member)
    requires Inside(a, c) && c != CtrModels && KeySlot(a.mode, c, m.key) == SlotIgnore
    ensures Plain(AtKey(a, c, m.key), m.value) == a.(curKey := m.key)
  {
  }

  lemma CardEffectHolds(c: Cards, ms: seq<Member>, f: CardField)
    requires ms != [] && CardHolds(c, ms[..|ms| - 1], f)
    ensures CardHolds(CardEffect(c, ms[|ms| - 1]), ms, f)
  {
  }

  lemma {:induction false} CardMembers(v: V, ms: seq<Member>, rawCtl: bool) returns (w: V)
    requires Inside(v, CtrCard) && v.stack == IN_CARD && v.cards.has == {} && v.cards.bad == {}
    ensures Ends(v, MemberEvents(ms), rawCtl, ScanMembers(ms, 3, rawCtl), w)
    ensures Like(w, v.(cards := v.cards.(card := w.cards.card, has := w.cards.has, bad := w.cards.bad)))
    ensures forall f :: CardHolds(w.cards, ms, f)
    decreases |ms|
  {
    w := v;
    if ms != [] {
      var a := CardMembers(v, ms[..|ms| - 1], rawCtl);
      CardStep(a, ms[|ms| - 1]);
      w := PlainMember(a, CtrCard, ms[|ms| - 1], rawCtl);
      forall f ensures CardHolds(w.cards, ms, f) {
        CardEffectHolds(a.cards, ms, f);
      }
      EndsMembers(v, ms, a, w, 3, rawCtl);
    }
  }

  /** The list after one more element. */
  function ListGrow(c: Cards, j: Json): Cards {
    c.(list := c.list + [TreeCard(j)], err := OrElse(c.err, TreeCardFailure(j, |c.list|)))
  }

  /** w is x, up to the scratch card. */
  predicate LikeList(w: V, x: V) {
    Like(w, x.(cards := x.cards.(card := w.cards.card, has := w.cards.has, bad := w.cards.bad, list := w.cards.list)))
    && |w.cards.list| == |x.cards.list|
    && (x.cards.err.None? ==> w.cards.list == x.cards.list)
  }

  /** The commit of a card reports what its members say, and keeps it when they say nothing is wrong. */
  lemma CommitCardMatches(c: Cards, j: Json)
    requires j.Obj? && forall f :: CardHolds(c, j.members, f)
    ensures FirstCardFailure(c, CARD_SCHEMA) == TreeCardFailure(j, |c.list|)
    ensures c.has == {CName, CDescription, CReleaseDate} ==> TreeCardFailure(j, |c.list|).None?
    ensures TreeCardFailure(j, |c.list|).None? ==> c.card == TreeCard(j)
  {
    assert CardHolds(c, j.members, CName) && CardHolds(c, j.members, CDescription) && CardHolds(c, j.members, CReleaseDate);
    assert CARD_SCHEMA[1..] == [CDescription, CReleaseDate] && [CDescription, CReleaseDate][1..] == [CReleaseDate];
    var n := |c.list|;
    assert FirstCardFailure(c, [CReleaseDate]) == CardFieldFailure(j.members, n, CReleaseDate);
    assert FirstCardFailure(c, [CDescription, CReleaseDate]) ==
           OrElse(CardFieldFailure(j.members, n, CDescription), FirstCardFailure(c, [CReleaseDate]));
  }

  lemma EnterCard(v: V)
    requires v.ign == 0 && v.stack == IN_MODELS && v.slot == SlotCard
    ensures Begin(v, true) ==
            Ok(v.(slot := SlotNone, peak := Max(v.peak, 3), cards := v.cards.(card := NO_CARD, has := {}, bad := {}), stack := IN_CARD))
  {
  }

  lemma LeaveCard(b: V)
    requires b.ign == 0 && b.stack == IN_CARD
    ensures End(b) == Ok(CommitCard(b).(stack := IN_MODELS, slot := SlotCard))
  {
    assert b.stack[..2] == IN_MODELS;
  }

  /** One element of the models array. */
  lemma CardElem(v: V, j: Json, rawCtl: bool) returns (w: V)
    requires v.ign == 0 && v.stack == IN_MODELS && v.slot == SlotCard
    ensures Ends(v, Events(j), rawCtl, TreeDecode.Scan(j, 2, rawCtl), w)
    ensures LikeList(w, v.(cards := ListGrow(v.cards, j)))
  {
    if j.Obj? {
      EnterCard(v);
      var a := Begin(v, true).v;
      var b := CardMembers(a, j.members, rawCtl);
      LeaveCard(b);
      CommitCardMatches(b.cards, j);
      w := End(b).v;
      EndsContainer(v, ObjectBegin, a, MemberEvents(j.members), b, ObjectEnd, w, rawCtl, ScanMembers(j.members, 3, rawCtl));
    } else {
      w := PlainValue(v, j, rawCtl);
      NonObjectCard(v, j);
    }
  }

  lemma NonObjectCard(v: V, j: Json)
    requires v.ign == 0 && v.stack == IN_MODELS && v.slot == SlotCard && !j.Obj?
    ensures Plain(v, j) == v.(cards := ListGrow(v.cards, j))
  {
  }

  /** The list of the elements es, and the first of them that fails. */
  function ListOf(c: Cards, es: seq<Json>): Cards {
    c.(list := TreeCards(es), err := FirstTreeCardFailure(es))
  }

  lemma {:induction false} CardElems(v: V, es: seq<Json>, rawCtl: bool) returns (w: V)
    requires v.ign == 0 && v.stack == IN_MODELS && v.slot == SlotCard && v.cards.list == [] && v.cards.err.None?
    ensures Ends(v, ElemEvents(es), rawCtl, ScanElems(es, 2, rawCtl), w)
    ensures LikeList(w, v.(cards := ListOf(v.cards, es)))
    decreases |es|
  {
    w := v;
    if es != [] {
      var a := CardElems(v, es[..|es| - 1], rawCtl);
      w := CardElem(a, es[|es| - 1], rawCtl);
      EndsConcat(v, ElemEvents(es[..|es| - 1]), a, Events(es[|es| - 1]), w, rawCtl,
                 ScanElems(es[..|es| - 1], 2, rawCtl), TreeDecode.Scan(es[|es| - 1], 2, rawCtl));
    }
  }

  // ----- the top level -----

  const IN_ROOT := [CtrRoot]

  /** The top-level fields know of the model, the usage and the answers what the members ms say. */
  predicate TopHolds(w: V, ms: seq<Member>) {
    && ModelHolds(w.top, Last(ms, "model"))
    && UsageHolds(w.top, Last(ms, "usage"))
    && AnswersHold(w, Last(ms, "answers"))
  }

  predicate ModelHolds(t: Top, last: Option<Json>) {
    match last
    case None => !t.hasModel
    case Some(Str(s, _)) => t.hasModel && t.modelErr.None? && t.model == s
    case Some(_) => t.hasModel && t.modelErr == Some(TopFailure("model", "", NotString))
  }

  predicate UsageHolds(t: Top, last: Option<Json>) {
    match last
    case None => !t.hasUsage
    case Some(Obj(us, _)) => t.hasUsage && t.usageErr.None? && t == UsageTop(t, us)
    case Some(_) => t.hasUsage && t.usageErr == Some(TopFailure("usage", "", NotObject))
  }

  predicate AnswersHold(w: V, last: Option<Json>) {
    match last
    case None => w.top.answersErr.None? && w.entries == []
    case Some(Obj(ms, _)) => w.top.answersErr.None? && w.entries == TreeAnswers(ms, false)
    case Some(_) => w.top.answersErr == Some(TopFailure("answers", "", NotObject)) && w.entries == []
  }

  /** w still knows of the members but the one called key what a knew. */
  predicate SameTop(w: V, a: V, key: string) {
    && (key != "model" ==> w.top.hasModel == a.top.hasModel && w.top.modelErr == a.top.modelErr && w.top.model == a.top.model)
    && (key != "usage" ==> w.top.hasUsage == a.top.hasUsage && w.top.usageErr == a.top.usageErr && w.top.usage == a.top.usage
                           && w.top.inBad == a.top.inBad && w.top.outBad == a.top.outBad)
    && (key != "answers" ==> w.top.answersErr == a.top.answersErr && w.entries == a.entries)
  }

  /** w is a, up to what System One members change. */
  predicate LikeTop(w: V, a: V) {
    Like(w, a.(top := w.top, entries := w.entries, cur := w.cur, probs := w.probs, legend := w.legend))
  }

  predicate RootMemberRead(a: V, m: Member, w: V) {
    && LikeTop(w, a)
    && SameTop(w, a, m.key)
    && (m.key == "model" ==> ModelHolds(w.top, Some(m.value)))
    && (m.key == "usage" ==> UsageHolds(w.top, Some(m.value)))
    && (m.key == "answers" ==> AnswersHold(w, Some(m.value)))
  }

  lemma RootPlainRead(a: V, m: Member)
    requires Inside(a, CtrRoot) && a.mode == SystemOne
    requires !((m.key == "usage" || m.key == "answers") && m.value.Obj?)
    ensures RootMemberRead(a, m, Plain(AtKey(a, CtrRoot, m.key), m.value))
    ensures IsPlain(KeySlot(a.mode, CtrRoot, m.key), m.value)
  {
    if m.key == "model" {
      ModelPlain(a, m);
    } else if m.key == "usage" || m.key == "answers" {
      WrongPlain(a, m);
    } else {
      OtherPlain(a, m);
    }
  }

  lemma ModelPlain(a: V, m: Member)
    requires Inside(a, CtrRoot) && a.mode == SystemOne && m.key == "model"
    ensures Plain(AtKey(a, CtrRoot, m.key), m.value) ==
            if m.value.Str? then a.(curKey := m.key, top := a.top.(model := m.value.s, hasModel := true, modelErr := None))
            else a.(curKey := m.key, top := a.top.(hasModel := true, modelErr := Some(TopFailure("model", "", NotString))))
  {
    var k := AtKey(a, CtrRoot, m.key);
    if !m.value.Str? {
      VisitorProof.Refused(k, m.value);
    }
  }

  lemma WrongPlain(a: V, m: Member)
    requires Inside(a, CtrRoot) && a.mode == SystemOne && (m.key == "usage" || m.key == "answers") && !m.value.Obj?
    ensures Plain(AtKey(a, CtrRoot, m.key), m.value) ==
            if m.key == "usage" then
              a.(curKey := m.key, top := a.top.(hasUsage := true, usageErr := Some(TopFailure("usage", "", NotObject))))
            else
              a.(curKey := m.key, entries := [], top := a.top.(answersErr := Some(TopFailure("answers", "", NotObject))))
  {
    VisitorProof.Refused(AtKey(a, CtrRoot, m.key), m.value);
  }

  lemma OtherPlain(a: V, m: Member)
    requires Inside(a, CtrRoot) && a.mode == SystemOne && m.key != "model" && m.key != "usage" && m.key != "answers"
    ensures Plain(AtKey(a, CtrRoot, m.key), m.value) == a.(curKey := m.key)
  {
    IgnoredStep(a, CtrRoot, m);
  }

  lemma EnterUsage(v: V)
    requires v.ign == 0 && v.stack == IN_ROOT && v.slot == SlotUsage
    ensures Begin(v, true) ==
            Ok(v.(slot := SlotNone, peak := Max(v.peak, 2), stack := [CtrRoot, CtrUsage],
                  top := v.top.(usage := NO_USAGE, hasUsage := true, usageErr := None, inBad := false, outBad := false)))
  {
  }

  lemma EnterAnswers(v: V)
    requires v.ign == 0 && v.stack == IN_ROOT && v.slot == SlotAnswers
    ensures Begin(v, true) ==
            Ok(v.(slot := SlotNone, peak := Max(v.peak, 2), stack := IN_ANSWERS, entries := [], top := v.top.(answersErr := None)))
  {
  }

  lemma LeaveToRoot(b: V, c: Ctr)
    requires b.ign == 0 && b.stack == [CtrRoot, c] && (c == CtrUsage || c == CtrAnswers)
    ensures End(b) == Ok(b.(stack := IN_ROOT))
  {
    assert b.stack[..1] == IN_ROOT;
  }

  lemma UsageValue(v: V, j: Json, rawCtl: bool) returns (w: V)
    requires v.ign == 0 && v.stack == IN_ROOT && v.slot == SlotUsage && j.Obj?
    ensures Ends(v, Events(j), rawCtl, TreeDecode.Scan(j, 1, rawCtl), w)
    ensures Like(w, v.(slot := SlotNone, top := UsageTop(v.top.(hasUsage := true, usageErr := None), j.members)))
  {
    EnterUsage(v);
    var a := Begin(v, true).v;
    var b := UsageMembers(a, j.members, rawCtl);
    LeaveToRoot(b, CtrUsage);
    w := b.(stack := IN_ROOT);
    EndsContainer(v, ObjectBegin, a, MemberEvents(j.members), b, ObjectEnd, w, rawCtl, ScanMembers(j.members, 2, rawCtl));
  }

  lemma AnswersValue(v: V, j: Json, rawCtl: bool) returns (w: V)
    requires v.ign == 0 && v.stack == IN_ROOT && v.slot == SlotAnswers && j.Obj?
    ensures Ends(v, Events(j), rawCtl, TreeDecode.Scan(j, 1, rawCtl), w)
    ensures LikeRoot(w, v.(slot := SlotNone, entries := TreeAnswers(j.members, false), top := v.top.(answersErr := None)))
  {
    EnterAnswers(v);
    var a := Begin(v, true).v;
    var b := AnswersMembers(a, j.members, rawCtl);
    LeaveToRoot(b, CtrAnswers);
    w := b.(stack := IN_ROOT);
    EndsContainer(v, ObjectBegin, a, MemberEvents(j.members), b, ObjectEnd, w, rawCtl, ScanMembers(j.members, 2, rawCtl));
  }

  /** One member of a System One body. */
  lemma RootMember(a: V, m: Member, rawCtl: bool) returns (w: V)
    requires Inside(a, CtrRoot) && a.stack == IN_ROOT && a.mode == SystemOne
    ensures Ends(a, [KeyEv(m.key)] + Events(m.value), rawCtl,
                 OrElse(CheckString(m.key, rawCtl), TreeDecode.Scan(m.value, 1, rawCtl)), w)
    ensures RootMemberRead(a, m, w)
  {
    var k := AtKey(a, CtrRoot, m.key);
    if m.key == "usage" && m.value.Obj? {
      w := UsageValue(k, m.value, rawCtl);
      EndsMember(a, m.key, k, Events(m.value), w, rawCtl, TreeDecode.Scan(m.value, 1, rawCtl));
    } else if m.key == "answers" && m.value.Obj? {
      w := AnswersValue(k, m.value, rawCtl);
      EndsMember(a, m.key, k, Events(m.value), w, rawCtl, TreeDecode.Scan(m.value, 1, rawCtl));
    } else {
      RootPlainRead(a, m);
      w := PlainMember(a, CtrRoot, m, rawCtl);
    }
  }

  lemma TopStep(a: V, ms: seq<Member>, w: V)
    requires ms != [] && TopHolds(a, ms[..|ms| - 1]) && RootMemberRead(a, ms[|ms| - 1], w)
    ensures TopHolds(w, ms)
  {
  }

  lemma {:induction false} RootMembers(v: V, ms: seq<Member>, rawCtl: bool) returns (w: V)
    requires Inside(v, CtrRoot) && v.stack == IN_ROOT && v.mode == SystemOne && TopHolds(v, [])
    ensures Ends(v, MemberEvents(ms), rawCtl, ScanMembers(ms, 1, rawCtl), w)
    ensures LikeTop(w, v) && TopHolds(w, ms)
    decreases |ms|
  {
    w := v;
    if ms != [] {
      var a := RootMembers(v, ms[..|ms| - 1], rawCtl);
      w := RootMember(a, ms[|ms| - 1], rawCtl);
      TopStep(a, ms, w);
      EndsMembers(v, ms, a, w, 1, rawCtl);
    }
  }

  /** The list fields know what the last models member says. */
  predicate ListHolds(c: Cards, last: Option<Json>) {
    match last
    case None => !c.hasCards && c.list == [] && c.err.None?
    case Some(Arr(es, _)) => c.hasCards && c.err == FirstTreeCardFailure(es) && (c.err.None? ==> c.list == TreeCards(es))
    case Some(_) => c.hasCards && c.err == Some(TopFailure("models", "", NotArray))
  }

  lemma EnterModels(v: V)
    requires v.ign == 0 && v.stack == IN_ROOT && v.slot == SlotModels
    ensures Begin(v, false) ==
            Ok(v.(slot := SlotCard, peak := Max(v.peak, 2), stack := IN_MODELS, cards := v.cards.(list := [], hasCards := true, err := None)))
  {
  }

  lemma LeaveModels(b: V)
    requires b.ign == 0 && b.stack == IN_MODELS
    ensures End(b) == Ok(b.(stack := IN_ROOT, slot := SlotNone))
  {
    assert b.stack[..1] == IN_ROOT;
  }

  lemma ModelsValue(v: V, j: Json, rawCtl: bool) returns (w: V)
    requires v.ign == 0 && v.stack == IN_ROOT && v.slot == SlotModels && j.Arr?
    ensures Ends(v, Events(j), rawCtl, TreeDecode.Scan(j, 1, rawCtl), w)
    ensures Like(w, v.(slot := SlotNone, cards := w.cards)) && ListHolds(w.cards, Some(j))
  {
    EnterModels(v);
    var b := Begin(v, false).v;
    var c := CardElems(b, j.elems, rawCtl);
    LeaveModels(c);
    w := c.(stack := IN_ROOT, slot := SlotNone);
    EndsContainer(v, ArrayBegin, b, ElemEvents(j.elems), c, ArrayEnd, w, rawCtl, ScanElems(j.elems, 2, rawCtl));
  }

  /** One member of a list-models body. */
  lemma ModelsMember(a: V, m: Member, rawCtl: bool) returns (w: V)
    requires Inside(a, CtrRoot) && a.stack == IN_ROOT && a.mode == Models
    ensures Ends(a, [KeyEv(m.key)] + Events(m.value), rawCtl,
                 OrElse(CheckString(m.key, rawCtl), TreeDecode.Scan(m.value, 1, rawCtl)), w)
    ensures Like(w, a.(cards := w.cards))
    ensures if m.key == "models" then ListHolds(w.cards, Some(m.value)) else w.cards == a.cards
  {
    var k := AtKey(a, CtrRoot, m.key);
    if m.key == "models" && m.value.Arr? {
      w := ModelsValue(k, m.value, rawCtl);
      EndsMember(a, m.key, k, Events(m.value), w, rawCtl, TreeDecode.Scan(m.value, 1, rawCtl));
    } else {
      ModelsPlain(a, m);
      w := PlainMember(a, CtrRoot, m, rawCtl);
    }
  }

  lemma ModelsPlain(a: V, m: Member)
    requires Inside(a, CtrRoot) && a.mode == Models && a.stack == IN_ROOT && !(m.key == "models" && m.value.Arr?)
    ensures IsPlain(KeySlot(a.mode, CtrRoot, m.key), m.value)
    ensures var w := Plain(AtKey(a, CtrRoot, m.key), m.value);
            && w == a.(curKey := m.key, cards := w.cards)
            && if m.key == "models" then ListHolds(w.cards, Some(m.value)) else w.cards == a.cards
  {
  }

  lemma {:induction false} ModelsMembers(v: V, ms: seq<Member>, rawCtl: bool) returns (w: V)
    requires Inside(v, CtrRoot) && v.stack == IN_ROOT && v.mode == Models && ListHolds(v.cards, None)
    ensures Ends(v, MemberEvents(ms), rawCtl, ScanMembers(ms, 1, rawCtl), w)
    ensures Like(w, v.(cards := w.cards)) && ListHolds(w.cards, Last(ms, "models"))
    decreases |ms|
  {
    w := v;
    if ms != [] {
      var a := ModelsMembers(v, ms[..|ms| - 1], rawCtl);
      w := ModelsMember(a, ms[|ms| - 1], rawCtl);
      EndsMembers(v, ms, a, w, 1, rawCtl);
    }
  }

  // ----- whole bodies -----

  lemma EnterRoot(mode: Mode)
    ensures Begin(Reset(mode), true) == Ok(Reset(mode).(slot := SlotNone, peak := 1, stack := IN_ROOT))
  {
  }

  lemma LeaveRoot(b: V)
    requires b.ign == 0 && b.stack == IN_ROOT
    ensures End(b) == Ok(b.(stack := []))
  {
    assert b.stack[..0] == [];
  }

  /** A root that is no object stops the run at its first event. */
  lemma RootRefused(mode: Mode, j: Json, rawCtl: bool)
    requires !j.Obj?
    ensures Run(Reset(mode), Events(j), rawCtl) == Fail(ScanRoot(j, rawCtl).value)
  {
    match j
    case Arr(es, _) =>
      RunConcat(Reset(mode), [ArrayBegin], ElemEvents(es) + [ArrayEnd], rawCtl);
      RunOne(Reset(mode), ArrayBegin, rawCtl);
      assert [ArrayBegin] + (ElemEvents(es) + [ArrayEnd]) == Events(j);
    case Null => RunOne(Reset(mode), NullEv, rawCtl);
    case Bool(_) => RunOne(Reset(mode), BoolEv, rawCtl);
    case Num(n) => RunOne(Reset(mode), NumEv(n), rawCtl);
    case Str(s, _) => RunOne(Reset(mode), StrEv(s), rawCtl);
  }

  /** A System One body's run fails in the JSON layer as its tree does, or ends knowing what its tree says. */
  lemma SystemOneRun(j: Json, rawCtl: bool) returns (w: V)
    ensures Ends(Reset(SystemOne), Events(j), rawCtl, ScanRoot(j, rawCtl), w)
    ensures j.Obj? ==> TopHolds(w, j.members)
  {
    if j.Obj? {
      var v := Reset(SystemOne);
      EnterRoot(SystemOne);
      var a := Begin(v, true).v;
      var b := RootMembers(a, j.members, rawCtl);
      LeaveRoot(b);
      w := b.(stack := []);
      EndsContainer(v, ObjectBegin, a, MemberEvents(j.members), b, ObjectEnd, w, rawCtl, ScanMembers(j.members, 1, rawCtl));
    } else {
      w := Reset(SystemOne);
      RootRefused(SystemOne, j, rawCtl);
    }
  }

  lemma ModelsRun(j: Json, rawCtl: bool) returns (w: V)
    ensures Ends(Reset(Models), Events(j), rawCtl, ScanRoot(j, rawCtl), w)
    ensures j.Obj? ==> ListHolds(w.cards, Last(j.members, "models"))
  {
    if j.Obj? {
      var v := Reset(Models);
      EnterRoot(Models);
      var a := Begin(v, true).v;
      var b := ModelsMembers(a, j.members, rawCtl);
      LeaveRoot(b);
      w := b.(stack := []);
      EndsContainer(v, ObjectBegin, a, MemberEvents(j.members), b, ObjectEnd, w, rawCtl, ScanMembers(j.members, 1, rawCtl));
    } else {
      w := Reset(Models);
      RootRefused(Models, j, rawCtl);
    }
  }
}
