/** The visitor of internal/codec/visitor.go and commit.go with its fields updated in place: every event method is proved
    to do to View, the fields taken as one value, what the transition system of Machine does. */
module VisitorClass {
  import opened Basics
  import opened Json
  import opened Wire
  import opened Folds
  import opened Machine
  import Control
  import Utf8

  /** A well-formed sequence that starts with no control character holds none. */
  lemma SequenceNotLow(u: string)
    requires Utf8.IsSequence(u) && u[0] as int >= 0x20
    ensures forall k :: 0 <= k < |u| ==> u[k] as int >= 0x20
  {
  }

  /** The first i bytes of s hold no control character, and s is valid exactly when the others are. */
  predicate CheckedTo(s: string, i: nat) {
    i <= |s| && (Utf8.Valid(s) <==> Utf8.Valid(s[i..])) && forall k :: 0 <= k < i ==> s[k] as int >= 0x20
  }

  /** One sequence further. */
  lemma CheckedNext(s: string, i: nat, n: nat)
    requires CheckedTo(s, i) && i < |s| && s[i] as int >= 0x20 && n == Utf8.SeqLen(s[i..])
    ensures if n == 0 then !Utf8.Valid(s) else CheckedTo(s, i + n)
  {
    if n > 0 {
      var u := s[i..][..n];
      SequenceNotLow(u);
      assert forall k :: i <= k < i + n ==> s[k] == u[k - i];
      assert s[i..][n..] == s[i + n..];
    }
  }

  lemma CheckedEnds(s: string)
    ensures CheckedTo(s, 0)
    ensures CheckedTo(s, |s|) ==> Utf8.Valid(s) && !HasControl(s)
  {
    assert s[0..] == s && s[|s|..] == "";
  }

  /** ValidString: valid UTF-8 without a byte below 0x20. */
  method ValidString(s: string) returns (ok: bool)
    ensures ok <==> Utf8.Valid(s) && !HasControl(s)
  {
    var i := 0;
    CheckedEnds(s);
    while i < |s|
      invariant CheckedTo(s, i)
    {
      if (s[i] as int) < 0x20 {
        return false;
      }
      var n := Utf8.SeqLen(s[i..]);
      CheckedNext(s, i, n);
      if n == 0 {
        return false;
      }
      i := i + n;
    }
    ok := true;
  }

  // ----- the answer set -----

  const LINEAR_SET: nat := 8

  ghost predicate Distinct(entries: seq<Entry>) {
    forall a, b :: 0 <= a < b < |entries| ==> entries[a].name != entries[b].name
  }

  /** index maps every name to its position, and nothing else. */
  ghost predicate IndexesNames(entries: seq<Entry>, index: map<string, nat>) {
    && (forall i :: 0 <= i < |entries| ==> entries[i].name in index)
    && (forall name <- index :: index[name] < |entries| && entries[index[name]].name == name)
  }

  /** The answer member that slot s holds. */
  function FieldOf(s: Slot): Field {
    match s
    case SlotType => FType
    case SlotNoul => FNoul
    case SlotChoice => FChoice
    case SlotConfidence => FConfidence
    case SlotScore => FScore
    case SlotProbs => FProbs
    case _ => FLegend
  }

  lemma WrongMemberIs(v: V, s: Slot, container: bool)
    requires s in {SlotType, SlotNoul, SlotChoice, SlotConfidence, SlotScore, SlotProbs, SlotLegend}
    ensures Machine.WrongKind(v, s, container) == MemberWrong(v, FieldOf(s))
  {
  }

  /** The list once slot s has met what it does not take. */
  function WrongCards(c: Cards, s: Slot): Cards {
    match s
    case SlotModels => c.(list := [], hasCards := true, err := Some(TopFailure("models", "", NotArray)))
    case SlotCard => c.(err := OrElse(c.err, Some(CardFailure(|c.list|, "", NotObject))), list := c.list + [NO_CARD])
    case SlotCardName => LacksText(c, CName)
    case SlotCardDescription => LacksText(c, CDescription)
    case _ => LacksText(c, CReleaseDate)
  }

  lemma WrongCardIs(v: V, s: Slot, container: bool)
    requires s in {SlotModels, SlotCard, SlotCardName, SlotCardDescription, SlotCardReleaseDate}
    ensures Machine.WrongKind(v, s, container) == v.(cards := WrongCards(v.cards, s))
  {
  }

  /** The list after a string in a card's slot. */
  function TextCard(c: Cards, s: Slot, text: string): Cards {
    match s
    case SlotCardName => HasText(c, CName, c.card.(name := text))
    case SlotCardDescription => HasText(c, CDescription, c.card.(description := text))
    case _ => HasText(c, CReleaseDate, c.card.(releaseDate := text))
  }

  lemma TextCardIs(v0: V, text: string, num: Option<Number>)
    requires v0.slot in {SlotCardName, SlotCardDescription, SlotCardReleaseDate}
    ensures var v := Machine.NextCard(v0.(slot := SlotNone));
            Machine.Assign(v0, Some(text), num) == v.(cards := TextCard(v.cards, v0.slot, text))
  {
  }

  lemma ResetView(v: V, m: Mode)
    requires v.mode == m && v.slot == SlotRoot && v.ign == 0 && v.ignSlot == SlotNone && v.stack == [] && v.peak == 0
    requires v.top == EMPTY_TOP && v.cards == NO_CARDS && v.cur == EMPTY_SCRATCH && v.curKey == ""
    requires v.entries == [] && v.probs == [] && v.legend == []
    ensures v == Machine.Reset(m)
  {
  }

  class Visitor {
    var body: Control.Bytes
    ghost var raw: bool
    var mode: Mode

    var slot: Slot
    var ign: nat
    var ignSlot: Slot
    const stack: array<Ctr>
    var sp: nat
    var peak: nat

    var scanned: bool
    var rawCtl: bool

    var top: Top

    var cur: Scratch
    var curKey: string
    var entries: seq<Entry>
    var setIdx: map<string, nat>
    var idxOn: bool
    var probs: seq<Pair<real>>
    var legend: seq<Pair<Content>>

    var cards: Cards

    /** What the body's raw-control scan answers, asked or not. */
    ghost predicate BodyRead()
      reads this`body, this`raw
    {
      raw == Control.RawControl(body)
    }

    /** The stack has room, a scan that ran said what the body says, and the scratch index is on exactly for a long answer set. */
    ghost predicate Valid()
      reads this, stack
    {
      && stack.Length == MAX_DEPTH && sp <= MAX_DEPTH
      && (scanned ==> rawCtl == raw)
      && Distinct(entries)
      && (idxOn <==> |entries| > LINEAR_SET)
      && if idxOn then IndexesNames(entries, setIdx) else setIdx == map[]
    }

    /** The fields as the transition system sees them. */
    ghost function View(): V
      reads this, stack
      requires sp <= stack.Length
    {
      V(mode, slot, ign, ignSlot, stack[..sp], peak, top, cur, curKey, entries, probs, legend, cards)
    }

    /** An event method returned err: the transition r says the same. */
    ghost predicate Did(r: R, err: Option<Reason>)
      reads this, stack
      requires sp <= stack.Length
    {
      match err
      case Some(reason) => r == Fail(reason)
      case None => r == Ok(View())
    }

    constructor ()
      ensures Valid() && fresh(stack)
    {
      raw := false;
      stack := new Ctr[MAX_DEPTH](_ => CtrRoot);
      body, mode, slot, ign, ignSlot, sp, peak := [], SystemOne, SlotRoot, 0, SlotNone, 0, 0;
      scanned, rawCtl := false, false;
      entries, setIdx, idxOn := [], map[], false;
    }

    /** reset: the body. */
    method ResetBody(b: Control.Bytes, m: Mode)
      requires Valid()
      modifies this`body, this`raw, this`mode, this`scanned, this`rawCtl
      ensures Valid() && BodyRead() && body == b && mode == m
    {
      body, mode := b, m;
      raw := Control.RawControl(b);
      scanned, rawCtl := false, false;
    }

    /** reset: where the traversal stands. */
    method ResetTraversal()
      requires Valid()
      modifies this`slot, this`ign, this`ignSlot, this`sp, this`peak
      ensures Valid() && slot == SlotRoot && ign == 0 && ignSlot == SlotNone && sp == 0 && peak == 0
    {
      slot, ign, ignSlot, sp, peak := SlotRoot, 0, SlotNone, 0, 0;
    }

    /** reset: the members read. */
    method ResetScratch()
      requires Valid()
      modifies this`top, this`cards, this`cur, this`curKey, this`probs, this`legend
      ensures Valid() && top == EMPTY_TOP && cards == NO_CARDS && cur == EMPTY_SCRATCH && curKey == "" && probs == [] && legend == []
    {
      top, cards := EMPTY_TOP, NO_CARDS;
      cur, curKey := EMPTY_SCRATCH, "";
      probs, legend := [], [];
    }

    /** reset */
    method Reset(b: Control.Bytes, m: Mode)
      requires Valid()
      modifies this
      ensures Valid() && BodyRead() && View() == Machine.Reset(m) && body == b
    {
      ResetBody(b, m);
      ResetTraversal();
      ResetAnswers();
      ResetScratch();
      ResetView(View(), m);
    }

    /** resetAnswers */
    method ResetAnswers()
      requires Valid()
      modifies this`entries, this`setIdx, this`idxOn
      ensures Valid() && entries == []
    {
      entries := [];
      if idxOn {
        setIdx, idxOn := map[], false;
      }
    }

    /** checkString: the body is asked at most once. */
    method CheckString(s: string) returns (err: Option<Reason>)
      requires Valid() && BodyRead()
      modifies this`scanned, this`rawCtl
      ensures Valid() && View() == old(View())
      ensures err == Machine.CheckString(s, raw)
    {
      var plain := ValidString(s);
      if plain {
        return None;
      }
      if !Utf8.Valid(s) {
        return Some(InvalidUTF8);
      }
      if !scanned {
        scanned := true;
        rawCtl := Control.RawControlInString(body);
      }
      err := if rawCtl then Some(RawControlChar) else None;
    }

    // ----- put and find -----

    /** find: hashed when the set is long, scanned otherwise. */
    method Find(name: string) returns (i: int)
      requires Valid()
      ensures i == Machine.Find(entries, name)
    {
      if idxOn {
        return if name in setIdx then setIdx[name] else -1;
      }
      for k := 0 to |entries|
        invariant forall m :: 0 <= m < k ==> entries[m].name != name
      {
        if entries[k].name == name {
          return k;
        }
      }
      i := -1;
    }

    /** The scratch index of the whole set. */
    method IndexAll()
      requires Distinct(entries) && setIdx == map[]
      modifies this`setIdx
      ensures IndexesNames(entries, setIdx)
    {
      for i := 0 to |entries|
        invariant forall k :: 0 <= k < i ==> entries[k].name in setIdx
        invariant forall name <- setIdx :: setIdx[name] < i && entries[setIdx[name]].name == name
      {
        setIdx := setIdx[entries[i].name := i];
      }
    }

    /** A new name at the end of the set. */
    method Append(e: Entry)
      requires Valid() && Machine.Find(entries, e.name) < 0
      modifies this`entries, this`setIdx, this`idxOn
      ensures Valid() && entries == old(entries) + [e]
    {
      entries := entries + [e];
      if idxOn {
        setIdx := setIdx[e.name := |entries| - 1];
      } else if |entries| > LINEAR_SET {
        IndexAll();
        idxOn := true;
      }
    }

    /** put */
    method Put(e: Entry)
      requires Valid()
      modifies this`entries, this`setIdx, this`idxOn
      ensures Valid() && entries == Machine.Put(old(entries), e)
    {
      var i := Find(e.name);
      if i >= 0 {
        entries := entries[i := e];
      } else {
        Append(e);
      }
    }

    // ----- containers -----

    /** push */
    method Push(c: Ctr) returns (err: Option<Reason>)
      requires Valid()
      modifies this`sp, stack
      ensures Valid() && Did(Machine.Push(old(View()), c), err)
    {
      if sp == MAX_DEPTH {
        return Some(ReadTooDeep);
      }
      stack[sp] := c;
      sp := sp + 1;
      assert stack[..sp] == old(stack[..sp]) + [c];
      err := None;
    }

    /** A usage object. */
    method OpenUsage() returns (err: Option<Reason>)
      requires Valid()
      modifies this`top, this`sp, stack
      ensures Valid() && Did(Enter(old(View()), SlotUsage), err)
    {
      top := top.(usage := NO_USAGE, hasUsage := true, usageErr := None, inBad := false, outBad := false);
      err := Push(CtrUsage);
    }

    /** An answers object: the set starts anew. */
    method OpenAnswers() returns (err: Option<Reason>)
      requires Valid()
      modifies this`top, this`entries, this`setIdx, this`idxOn, this`sp, stack
      ensures Valid() && Did(Enter(old(View()), SlotAnswers), err)
    {
      ResetAnswers();
      top := top.(answersErr := None);
      err := Push(CtrAnswers);
    }

    /** An answer object: its scratch starts anew. */
    method OpenAnswer() returns (err: Option<Reason>)
      requires Valid()
      modifies this`cur, this`sp, stack
      ensures Valid() && Did(Enter(old(View()), SlotAnswer), err)
    {
      cur := EMPTY_SCRATCH.(name := curKey);
      err := Push(CtrAnswer);
    }

    /** An answer's probabilities. */
    method OpenProbs() returns (err: Option<Reason>)
      requires Valid()
      modifies this`cur, this`probs, this`sp, stack
      ensures Valid() && Did(Enter(old(View()), SlotProbs), err)
    {
      cur, probs := HasMember(cur, FProbs), [];
      err := Push(CtrProbs);
    }

    /** An answer's legend. */
    method OpenLegend() returns (err: Option<Reason>)
      requires Valid()
      modifies this`cur, this`legend, this`sp, stack
      ensures Valid() && Did(Enter(old(View()), SlotLegend), err)
    {
      cur, legend := HasMember(cur, FLegend), [];
      err := Push(CtrLegend);
    }

    method EmptyList()
      requires Valid()
      modifies this`cards
      ensures Valid() && View() == old(View()).(cards := old(cards).(list := [], hasCards := true, err := None))
    {
      cards := cards.(list := [], hasCards := true, err := None);
    }

    method DueCard()
      requires Valid()
      modifies this`slot
      ensures Valid() && View() == old(View()).(slot := SlotCard)
    {
      slot := SlotCard;
    }

    /** The model list: a card is due. */
    method OpenModels() returns (err: Option<Reason>)
      requires Valid()
      modifies this`cards, this`slot, this`sp, stack
      ensures Valid() && Did(Enter(old(View()), SlotModels), err)
    {
      EmptyList();
      err := Push(CtrModels);
      if err.None? {
        DueCard();
      }
    }

    /** A model card. */
    method OpenCard() returns (err: Option<Reason>)
      requires Valid()
      modifies this`cards, this`sp, stack
      ensures Valid() && Did(Enter(old(View()), SlotCard), err)
    {
      cards := cards.(card := NO_CARD, has := {}, bad := {});
      err := Push(CtrCard);
    }

    /** The readable container that starts in slot s. */
    method Open(s: Slot) returns (err: Option<Reason>)
      requires Valid() && s in {SlotUsage, SlotAnswers, SlotAnswer, SlotProbs, SlotLegend, SlotModels, SlotCard}
      modifies this`slot, this`sp, stack, this`top, this`cur, this`entries, this`setIdx, this`idxOn, this`probs, this`legend, this`cards
      ensures Valid() && Did(Enter(old(View()), s), err)
    {
      if s == SlotUsage {
        err := OpenUsage();
      } else if s == SlotAnswers {
        err := OpenAnswers();
      } else if s == SlotModels {
        err := OpenModels();
      } else if s == SlotCard {
        err := OpenCard();
      } else if s == SlotAnswer {
        err := OpenAnswer();
      } else if s == SlotProbs {
        err := OpenProbs();
      } else {
        err := OpenLegend();
      }
    }

    /** begin outside every container nobody reads, past the nesting check. */
    method BeginIn(isObj: bool, ghost v0: V) returns (err: Option<Reason>)
      requires Valid() && ign == 0 && sp < MAX_NESTING && v0.stack == View().stack
      requires View() == v0.(peak := Max(v0.peak, sp + 1))
      modifies this`ign, this`ignSlot, this`slot, this`sp, stack, this`top, this`cur, this`entries, this`setIdx, this`idxOn, this`probs, this`legend, this`cards
      ensures Valid() && Did(Machine.Begin(v0, isObj), err)
    {
      var s := slot;
      slot := SlotNone;
      if s == SlotRoot {
        if !isObj {
          return Some(RootNotObject);
        }
        err := Push(CtrRoot);
      } else if Reads(s, isObj) {
        err := Open(s);
      } else {
        ign, ignSlot := 1, s;
        err := None;
      }
    }

    /** begin */
    method Begin(isObj: bool) returns (err: Option<Reason>)
      requires Valid()
      modifies this`peak, this`ign, this`ignSlot, this`slot, this`sp, stack, this`top, this`cur, this`entries, this`setIdx, this`idxOn, this`probs, this`legend, this`cards
      ensures Valid() && Did(Machine.Begin(old(View()), isObj), err)
    {
      ghost var v0 := View();
      if sp + ign >= MAX_NESTING {
        return Some(TooDeep);
      }
      peak := Max(peak, sp + ign + 1);
      if ign > 0 {
        ign := ign + 1;
        return None;
      }
      err := BeginIn(isObj, v0);
    }

    /** nextCard */
    method NextCard()
      requires Valid()
      modifies this`slot
      ensures Valid() && View() == Machine.NextCard(old(View()))
    {
      if sp > 0 && stack[sp - 1] == CtrModels {
        slot := SlotCard;
      }
    }

    /** end of a container nobody reads. */
    method EndIgnored()
      requires Valid() && ign > 0
      modifies this`slot, this`ign, this`top, this`cur, this`entries, this`setIdx, this`idxOn, this`probs, this`legend, this`cards
      ensures Valid() && Machine.End(old(View())) == Ok(View())
    {
      ign := ign - 1;
      if ign == 0 {
        WrongKind(ignSlot, true);
        NextCard();
      }
    }

    /** The innermost container, taken off the stack. */
    method Pop() returns (c: Ctr)
      requires Valid() && sp > 0
      modifies this`sp
      ensures Valid() && c == old(View()).stack[old(sp) - 1]
      ensures View() == old(View()).(stack := old(View()).stack[..old(sp) - 1])
    {
      sp := sp - 1;
      c := stack[sp];
      assert stack[..sp] == old(stack[..sp])[..sp];
    }

    /** What the end of container c commits. */
    method Commit(c: Ctr)
      requires Valid()
      modifies this`entries, this`setIdx, this`idxOn, this`cards
      ensures Valid()
      ensures View() == match c case CtrAnswer => Machine.CommitAnswer(old(View()))
                                case CtrCard => Machine.CommitCard(old(View()))
                                case _ => old(View())
    {
      if c == CtrAnswer {
        CommitAnswer();
      } else if c == CtrCard {
        CommitCard();
      }
    }

    /** end of a container that is read. */
    method EndRead()
      requires Valid() && ign == 0 && sp > 0
      modifies this`slot, this`sp, this`entries, this`setIdx, this`idxOn, this`cards
      ensures Valid() && Machine.End(old(View())) == Ok(View())
    {
      var c := Pop();
      if c == CtrModels {
        slot := SlotNone;
        return;
      }
      Commit(c);
      NextCard();
    }

    /** end; the source would panic on an empty stack. */
    method End() returns (err: Option<Reason>)
      requires Valid()
      modifies this`slot, this`sp, this`ign, this`top, this`cur, this`entries, this`setIdx, this`idxOn, this`probs, this`legend, this`cards
      ensures Valid() && Did(Machine.End(old(View())), err)
    {
      if ign > 0 {
        EndIgnored();
        return None;
      }
      if sp == 0 {
        return Some(OutOfStack);
      }
      EndRead();
      err := None;
    }

    /** betweenRootMembers */
    method BetweenRootMembers() returns (between: bool)
      requires Valid()
      ensures between <==> Between(View())
    {
      between := sp == 1 && ign == 0 && stack[0] == CtrRoot && slot == SlotNone;
    }

    /** wrongKind at the top level. */
    method WrongTop(s: Slot, ghost container: bool)
      requires Valid() && s in {SlotModel, SlotUsage, SlotInputTokens, SlotOutputTokens}
      modifies this`top
      ensures Valid() && View() == Machine.WrongKind(old(View()), s, container)
    {
      if s == SlotModel {
        top := top.(hasModel := true, modelErr := Some(TopFailure("model", "", NotString)));
      } else if s == SlotUsage {
        top := top.(hasUsage := true, usageErr := Some(TopFailure("usage", "", NotObject)));
      } else if s == SlotInputTokens {
        top := top.(usage := top.usage.(input := None), inBad := true);
      } else {
        top := top.(usage := top.usage.(output := None), outBad := true);
      }
    }

    /** wrongKind of the answers. */
    method WrongAnswers(ghost container: bool)
      requires Valid()
      modifies this`top, this`entries, this`setIdx, this`idxOn
      ensures Valid() && View() == Machine.WrongKind(old(View()), SlotAnswers, container)
    {
      ResetAnswers();
      top := top.(answersErr := Some(TopFailure("answers", "", NotObject)));
    }

    /** wrongKind in an answer. */
    method WrongMember(s: Slot, ghost container: bool)
      requires Valid() && s in {SlotType, SlotNoul, SlotChoice, SlotConfidence, SlotScore, SlotProbs, SlotLegend}
      modifies this`cur
      ensures Valid() && View() == Machine.WrongKind(old(View()), s, container)
    {
      WrongMemberIs(View(), s, container);
      cur := LacksMember(cur, FieldOf(s));
    }

    /** wrongKind of an answer or of an entry of a list. */
    method WrongEntry(s: Slot, container: bool)
      requires Valid() && s in {SlotAnswer, SlotProbValue, SlotLegendValue}
      modifies this`entries, this`setIdx, this`idxOn, this`probs, this`legend
      ensures Valid() && View() == Machine.WrongKind(old(View()), s, container)
    {
      if s == SlotAnswer {
        Put(Entry(curKey, Failed(AnswerFailure(curKey, "type", NotObject))));
      } else if s == SlotProbValue {
        probs := probs + [Pair(curKey, 0.0, true)];
      } else {
        legend := legend + [Pair(curKey, if container then Marked else Text(""), !container)];
      }
    }

    /** wrongKind in a model list. */
    method WrongCard(s: Slot, ghost container: bool)
      requires Valid() && s in {SlotModels, SlotCard, SlotCardName, SlotCardDescription, SlotCardReleaseDate}
      modifies this`cards
      ensures Valid() && View() == Machine.WrongKind(old(View()), s, container)
    {
      WrongCardIs(View(), s, container);
      cards := WrongCards(cards, s);
    }

    /** wrongKind */
    method WrongKind(s: Slot, container: bool)
      requires Valid()
      modifies this`top, this`cur, this`entries, this`setIdx, this`idxOn, this`probs, this`legend, this`cards
      ensures Valid() && View() == Machine.WrongKind(old(View()), s, container)
    {
      match s {
        case SlotModel | SlotUsage | SlotInputTokens | SlotOutputTokens => WrongTop(s, container);
        case SlotAnswers => WrongAnswers(container);
        case SlotType | SlotNoul | SlotChoice | SlotConfidence | SlotScore | SlotProbs | SlotLegend => WrongMember(s, container);
        case SlotAnswer | SlotProbValue | SlotLegendValue => WrongEntry(s, container);
        case SlotModels | SlotCard | SlotCardName | SlotCardDescription | SlotCardReleaseDate => WrongCard(s, container);
        case SlotNone | SlotIgnore | SlotRoot =>
      }
    }

    // ----- scalars -----

    /** scalar */
    method Scalar(str: Option<string>, num: Option<Number>) returns (err: Option<Reason>)
      requires Valid()
      modifies this`slot, this`top, this`cur, this`entries, this`setIdx, this`idxOn, this`probs, this`legend, this`cards
      ensures Valid() && Did(Machine.Scalar(old(View()), str, num), err)
    {
      if ign > 0 {
        return None;
      }
      if slot == SlotRoot {
        return Some(RootNotObject);
      }
      Assign(str, num);
      err := None;
    }

    /** assign's cases that take a string. */
    method AssignText(sl: Slot, s: string, ghost v0: V, ghost num: Option<Number>)
      requires Valid() && sl == v0.slot && View() == Machine.NextCard(v0.(slot := SlotNone))
      requires sl in {SlotModel, SlotType, SlotChoice}
      modifies this`top, this`cur
      ensures Valid() && View() == Machine.Assign(v0, Some(s), num)
    {
      if sl == SlotModel {
        top := top.(model := s, hasModel := true, modelErr := None);
      } else if sl == SlotType {
        cur := HasMember(cur.(typ := s), FType);
      } else {
        cur := HasMember(cur.(choice := s), FChoice);
      }
    }

    /** assign's cases in a model card. */
    method AssignCard(sl: Slot, s: string, ghost v0: V, ghost num: Option<Number>)
      requires Valid() && sl == v0.slot && View() == Machine.NextCard(v0.(slot := SlotNone))
      requires sl in {SlotCardName, SlotCardDescription, SlotCardReleaseDate}
      modifies this`cards
      ensures Valid() && View() == Machine.Assign(v0, Some(s), num)
    {
      TextCardIs(v0, s, num);
      cards := TextCard(cards, sl, s);
    }

    /** assign's cases that take a count. */
    method AssignCount(sl: Slot, n: Option<nat>, ghost v0: V, ghost str: Option<string>, ghost num: Option<Number>)
      requires Valid() && sl == v0.slot && View() == Machine.NextCard(v0.(slot := SlotNone))
      requires sl in {SlotInputTokens, SlotOutputTokens} && n == ParseCount(num) && n.Some?
      modifies this`top
      ensures Valid() && View() == Machine.Assign(v0, str, num)
    {
      if sl == SlotInputTokens {
        top := top.(usage := top.usage.(input := n), inBad := false);
      } else {
        top := top.(usage := top.usage.(output := n), outBad := false);
      }
    }

    /** assign's cases that take a number. */
    method AssignFloat(sl: Slot, f: real, ghost v0: V, ghost str: Option<string>, ghost num: Option<Number>)
      requires Valid() && sl == v0.slot && View() == Machine.NextCard(v0.(slot := SlotNone))
      requires sl in {SlotNoul, SlotConfidence, SlotScore} && ParseFloat(num) == Some(f)
      modifies this`cur
      ensures Valid() && View() == Machine.Assign(v0, str, num)
    {
      cur := if sl == SlotNoul then HasMember(cur.(noul := f), FNoul)
             else if sl == SlotConfidence then HasMember(cur.(conf := f), FConfidence)
             else HasMember(cur.(score := f), FScore);
    }

    /** assign's cases that keep a value of any kind: a probability and a legend level. */
    method AssignPair(sl: Slot, str: Option<string>, num: Option<Number>, ghost v0: V)
      requires Valid() && sl == v0.slot && View() == Machine.NextCard(v0.(slot := SlotNone))
      requires sl in {SlotProbValue, SlotLegendValue}
      modifies this`probs, this`legend
      ensures Valid() && View() == Machine.Assign(v0, str, num)
    {
      if sl == SlotProbValue {
        var f := ParseFloat(num);
        probs := probs + [Pair(curKey, if f.Some? then f.value else 0.0, f.None?)];
      } else {
        legend := legend + [Pair(curKey, Text(if str.Some? then str.value else ""), str.None?)];
      }
    }

    /** assign's cases. */
    method AssignIn(sl: Slot, str: Option<string>, num: Option<Number>, ghost v0: V) returns (done: bool)
      requires Valid() && sl == v0.slot && View() == Machine.NextCard(v0.(slot := SlotNone))
      modifies this`top, this`cur, this`cards, this`probs, this`legend
      ensures Valid()
      ensures Machine.Assign(v0, str, num) == if done then View() else Machine.WrongKind(View(), sl, false)
    {
      done := true;
      match sl {
        case SlotNone | SlotIgnore =>
        case SlotModel | SlotType | SlotChoice =>
          if str.None? {
            return false;
          }
          AssignText(sl, str.value, v0, num);
        case SlotCardName | SlotCardDescription | SlotCardReleaseDate =>
          if str.None? {
            return false;
          }
          AssignCard(sl, str.value, v0, num);
        case SlotInputTokens | SlotOutputTokens =>
          var n := ParseCount(num);
          if n.None? {
            return false;
          }
          AssignCount(sl, n, v0, str, num);
        case SlotNoul | SlotConfidence | SlotScore =>
          var f := ParseFloat(num);
          if f.None? {
            return false;
          }
          AssignFloat(sl, f.value, v0, str, num);
        case SlotProbValue | SlotLegendValue => AssignPair(sl, str, num, v0);
        case SlotRoot | SlotUsage | SlotAnswers | SlotAnswer | SlotProbs | SlotLegend | SlotModels | SlotCard => done := false;
      }
    }

    /** assign */
    method Assign(str: Option<string>, num: Option<Number>)
      requires Valid()
      modifies this`slot, this`top, this`cur, this`entries, this`setIdx, this`idxOn, this`probs, this`legend, this`cards
      ensures Valid() && View() == Machine.Assign(old(View()), str, num)
    {
      ghost var v0 := View();
      var sl := slot;
      slot := SlotNone;
      NextCard();
      var done := AssignIn(sl, str, num, v0);
      if !done {
        WrongKind(sl, false);
      }
    }

    /** OnNull */
    method OnNull() returns (err: Option<Reason>)
      requires Valid()
      modifies this`slot, this`top, this`cur, this`entries, this`setIdx, this`idxOn, this`probs, this`legend, this`cards
      ensures Valid() && Did(Machine.OnNull(old(View())), err)
    {
      if ign == 0 && (slot == SlotInputTokens || slot == SlotOutputTokens) {
        if slot == SlotInputTokens {
          top := top.(usage := top.usage.(input := None), inBad := false);
        } else {
          top := top.(usage := top.usage.(output := None), outBad := false);
        }
        slot := SlotNone;
        return None;
      }
      err := Scalar(None, None);
    }

    /** OnObjectKey, past the check of the key's text; the source would panic on an empty stack. */
    method OnKey(key: string) returns (err: Option<Reason>)
      requires Valid()
      modifies this`curKey, this`slot
      ensures Valid() && Did(Machine.OnKey(old(View()), key), err)
    {
      if ign > 0 {
        return None;
      }
      if sp == 0 {
        return Some(OutOfStack);
      }
      curKey := key;
      slot := KeySlot(mode, stack[sp - 1], key);
      err := None;
    }

    // ----- commits -----

    /** The failure of one member of the scratch answer, and what it folds to when it is a list. */
    method CheckMember(k: Kind, f: Field) returns (failure: Option<Failure>, texts: seq<(nat, Content)>, levels: seq<(nat, real)>,
                                                   labels: seq<(string, real)>)
      requires Valid()
      ensures failure == MemberFailure(View(), k, f)
      ensures failure.None? && f == FLegend ==> texts == FoldEntries(legend, LevelOf)
      ensures failure.None? && f == FProbs && k == KindChoice ==> labels == FoldEntries(probs, LabelOf)
      ensures failure.None? && f == FProbs && k != KindChoice ==> levels == FoldEntries(probs, LevelOf)
    {
      texts, levels, labels := [], [], [];
      failure := None;
      if f in cur.wrong {
        failure := Some(AnswerFailure(cur.name, FieldName(f), WrongKindReason(f)));
      } else if f !in cur.has {
        failure := Some(AnswerFailure(cur.name, FieldName(f), Missing));
      } else if f == FLegend {
        var pos;
        pos, texts := FoldPairs(legend, LevelOf);
        failure := Refusal(cur.name, "legend", legend, pos, LevelOf, BadLegendValue);
      } else if f == FProbs && k == KindChoice {
        var pos;
        pos, labels := FoldPairs(probs, LabelOf);
        failure := Refusal(cur.name, "probabilities", probs, pos, LabelOf, NotNumber);
      } else if f == FProbs {
        var pos;
        pos, levels := FoldPairs(probs, LevelOf);
        failure := Refusal(cur.name, "probabilities", probs, pos, LevelOf, NotNumber);
      }
    }

    /** The members an answer of kind k needs, in schema order, until one fails. */
    method CheckMembers(k: Kind) returns (failure: Option<Failure>, answer: Answer)
      requires Valid()
      ensures failure == FirstMemberFailure(View(), k, Schema(k))
      ensures failure.None? ==> answer == ScratchAnswer(View(), k)
    {
      var texts: seq<(nat, Content)>, levels: seq<(nat, real)>, labels: seq<(string, real)> := [], [], [];
      answer := Noul(cur.noul);
      var fields := Schema(k);
      for i := 0 to |fields|
        invariant FirstMemberFailure(View(), k, fields) == FirstMemberFailure(View(), k, fields[i..])
        invariant FLegend in fields[..i] ==> texts == FoldEntries(legend, LevelOf)
        invariant FProbs in fields[..i] && k == KindChoice ==> labels == FoldEntries(probs, LabelOf)
        invariant FProbs in fields[..i] && k == KindScore ==> levels == FoldEntries(probs, LevelOf)
      {
        assert fields[..i + 1] == fields[..i] + [fields[i]];
        assert fields[i..][0] == fields[i] && fields[i..][1..] == fields[i + 1..];
        var newTexts, newLevels, newLabels;
        failure, newTexts, newLevels, newLabels := CheckMember(k, fields[i]);
        if failure.Some? {
          return;
        }
        if fields[i] == FLegend {
          texts := newTexts;
        } else if fields[i] == FProbs {
          levels, labels := newLevels, newLabels;
        }
      }
      assert fields[..|fields|] == fields;
      failure := None;
      match k {
        case KindNoul =>
        case KindChoice => answer := Choice(cur.choice, cur.conf, labels);
        case KindScore => answer := Score(cur.score, cur.conf, texts, levels);
      }
    }

    /** commitAnswer */
    method CommitAnswer()
      requires Valid()
      modifies this`entries, this`setIdx, this`idxOn
      ensures Valid() && View() == Machine.CommitAnswer(old(View()))
    {
      if FType in cur.wrong {
        Put(Entry(cur.name, Failed(AnswerFailure(cur.name, "type", NotString))));
        return;
      }
      if FType !in cur.has {
        Put(Entry(cur.name, Failed(AnswerFailure(cur.name, "type", Missing))));
        return;
      }
      var kind := ParseKind(cur.typ);
      if kind.None? {
        Put(Entry(cur.name, Unmodelled(cur.typ)));
        return;
      }
      var failure, answer := CheckMembers(kind.value);
      Put(Entry(cur.name, if failure.Some? then Failed(failure.value) else Known(answer)));
    }

    /** commitCard */
    method CommitCard()
      requires Valid()
      modifies this`cards
      ensures Valid() && View() == Machine.CommitCard(old(View()))
    {
      ghost var c := cards;
      if cards.err.None? && cards.has != {CName, CDescription, CReleaseDate} {
        var fields := CARD_SCHEMA;
        for i := 0 to |fields|
          invariant cards == c && c.err.None?
          invariant FirstCardFailure(c, fields) == FirstCardFailure(c, fields[i..])
        {
          assert fields[i..][0] == fields[i] && fields[i..][1..] == fields[i + 1..];
          if fields[i] in cards.bad {
            cards := cards.(err := Some(CardFailure(|cards.list|, CardFieldName(fields[i]), NotString)));
            break;
          }
          if fields[i] !in cards.has {
            cards := cards.(err := Some(CardFailure(|cards.list|, CardFieldName(fields[i]), Missing)));
            break;
          }
        }
      }
      cards := cards.(list := cards.list + [cards.card]);
    }

    // ----- runs -----

    /** OnObjectKey */
    method KeyEvent(key: string) returns (err: Option<Reason>)
      requires Valid() && BodyRead()
      modifies this`scanned, this`rawCtl, this`curKey, this`slot
      ensures Valid() && Did(Step(old(View()), KeyEv(key), raw), err)
    {
      err := CheckString(key);
      if err.None? {
        err := OnKey(key);
      }
    }

    /** OnString */
    method StrEvent(s: string) returns (err: Option<Reason>)
      requires Valid() && BodyRead()
      modifies this`scanned, this`rawCtl, this`slot, this`top, this`cur, this`entries, this`setIdx, this`idxOn, this`probs, this`legend,
               this`cards
      ensures Valid() && Did(Step(old(View()), StrEv(s), raw), err)
    {
      err := CheckString(s);
      if err.None? {
        err := Scalar(Some(s), None);
      }
    }

    /** One parser event. */
    method OnEvent(e: Event) returns (err: Option<Reason>)
      requires Valid() && BodyRead()
      modifies this, stack
      ensures Valid() && body == old(body) && raw == old(raw)
      ensures Did(Step(old(View()), e, raw), err)
    {
      match e {
        case ObjectBegin => err := Begin(true);
        case ArrayBegin => err := Begin(false);
        case ObjectEnd => err := End();
        case ArrayEnd => err := End();
        case KeyEv(key) => err := KeyEvent(key);
        case StrEv(s) => err := StrEvent(s);
        case NumEv(n) => err := Scalar(None, Some(n));
        case BoolEv => err := Scalar(None, None);
        case NullEv => err := OnNull();
      }
    }

    /** The events es in order, until one is refused. */
    method Preorder(es: seq<Event>) returns (err: Option<Reason>)
      requires Valid() && BodyRead()
      modifies this, stack
      ensures Valid() && body == old(body) && raw == old(raw)
      ensures Did(Run(old(View()), es, raw), err)
    {
      ghost var v0 := View();
      for i := 0 to |es|
        invariant Valid() && body == old(body) && raw == old(raw)
        invariant Run(v0, es, raw) == Run(View(), es[i..], raw)
      {
        assert es[i..][0] == es[i] && es[i..][1..] == es[i + 1..];
        err := OnEvent(es[i]);
        if err.Some? {
          return;
        }
      }
      err := None;
    }
  }

  /** The failure at a folded member's first failing position. */
  method Refusal<K, T>(name: string, member: string, pairs: seq<Pair<T>>, pos: Option<nat>, parse: string -> Option<K>, bad: Reason)
    returns (failure: Option<Failure>)
    requires pos == FirstFailing(pairs, parse)
    ensures failure == FoldFailure(name, member, pairs, parse, bad)
  {
    match pos {
      case None => failure := None;
      case Some(i) => failure := Some(KeyFailure(name, member, pairs[i].key, if parse(pairs[i].key).None? then NotLevel else bad));
    }
  }
}
