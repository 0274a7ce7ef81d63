/**
  DecodeSystemOne and DecodeModels from the parser's events to the result
  (internal/codec/decode.go), for bodies that are JSON and bodies that are
  not. The parser is a parameter (Parser.Source, Parser.Parsed).
*/
module Decoder {
  import opened Basics
  import opened Json
  import opened Wire
  import opened Machine
  import opened TreeDecode
  import opened DecodeProof
  import opened Nesting
  import opened Parser
  import opened Prefix
  import opened VisitorProof
  import opened Finish
  import opened VisitorClass
  import Control
  import Cut

  /**
    The failure at the root: of the tree's text, nesting or root, then of what
    follows it; of a body that is not JSON, the first of what was delivered
    before the parser stopped, then the parser's.
  */
  ghost function RootFailures(src: Source): Option<Reason>
    requires |src.ends| <= |Events(src.tree)|
  {
    match src.stop
    case Closed(trailing) => OrElse(ScanRoot(src.tree, Control.RawControl(src.body)), trailing)
    case Broken(_, reason) => OrElse(ScanEvents(Delivered(src), Control.RawControl(src.body)), Some(reason))
  }

  /** What the run over the whole tree comes to, in both modes. */
  lemma WholeRun(mode: Mode, j: Json, rawCtl: bool)
    ensures var r := Run(Reset(mode), Events(j), rawCtl);
            match ScanRoot(j, rawCtl)
            case Some(reason) => r == Fail(reason)
            case None => r.Ok? && j.Obj? && Knows(mode, r.v, j.members) && r.v.peak == Height(j)
  {
    if mode == SystemOne {
      var w := SystemOneRun(j, rawCtl);
    } else {
      var w := ModelsRun(j, rawCtl);
    }
    if ScanRoot(j, rawCtl).None? {
      PeakIsHeight(mode, j, rawCtl);
    }
  }

  /** The visitor knows what the root members ms say. */
  predicate Knows(mode: Mode, v: V, ms: seq<Member>) {
    if mode == SystemOne then TopHolds(v, ms) else ListHolds(v.cards, Last(ms, "models"))
  }

  /** Where the visitor stands between two root members, it has read whole members. */
  lemma BetweenReads(mode: Mode, j: Json, k: nat, rawCtl: bool)
    requires k <= |Events(j)| && Run(Reset(mode), Events(j)[..k], rawCtl).Ok?
    requires Between(Run(Reset(mode), Events(j)[..k], rawCtl).v)
    ensures WholeMembers(Events(j)[..k], j)
  {
    if j.Obj? {
      BetweenIsBoundary(mode, j.members, j.raw, k, rawCtl);
    } else {
      NoObject(mode, j, k, rawCtl);
    }
  }

  /** A root that is no object is refused at its first event. */
  lemma NoObject(mode: Mode, j: Json, k: nat, rawCtl: bool)
    requires k <= |Events(j)| && !j.Obj?
    ensures if k == 0 then Run(Reset(mode), Events(j)[..k], rawCtl) == Ok(Reset(mode)) else Run(Reset(mode), Events(j)[..k], rawCtl).Fail?
  {
    if k == 0 {
      EmptyPrefix(mode, j, rawCtl);
    } else {
      FirstRefused(mode, j, rawCtl);
      assert Events(j)[..k] == Events(j)[..1] + Events(j)[1..k];
      RunConcat(Reset(mode), Events(j)[..1], Events(j)[1..k], rawCtl);
    }
  }

  lemma FirstRefused(mode: Mode, j: Json, rawCtl: bool)
    requires !j.Obj?
    ensures Run(Reset(mode), Events(j)[..1], rawCtl).Fail?
  {
    assert Events(j)[..1] == [Events(j)[0]];
    RunOne(Reset(mode), Events(j)[0], rawCtl);
  }

  /** A cut traversal that ends with errCut between two root members has read the body up to its root's end. */
  lemma CutIsWhole(mode: Mode, src: Source, n: nat, rawCtl: bool)
    requires Parsed(src) && src.cutErr && n < |src.body| && Cut.EndsAt(src.body, n) && Cut.CutAt(src.body, n)
    requires var r := Run(Reset(mode), src.cutEvents, rawCtl); r.Ok? && Between(r.v)
    ensures src.stop.Closed? && src.tree.Obj?
    ensures src.cutEvents == [ObjectBegin] + MemberEvents(src.tree.members)
    ensures Height(src.tree) <= SKIP_DEPTH ==> src.stop.trailing.None?
  {
    CutDelivers(src, n);
    BetweenReads(mode, src.tree, Upto(src.ends, n), rawCtl);
    CutReadsAll(src, n);
  }

  /** What a run from Reset comes to, why being the failure at the root. */
  predicate Decides(mode: Mode, r: R, why: Option<Reason>, tree: Json) {
    Fails(r, why) && (r.Ok? ==> tree.Obj? && Knows(mode, r.v, tree.members))
  }

  /** Handing it the root's end decides the body. */
  lemma CutDecides(mode: Mode, src: Source, n: nat)
    requires Parsed(src) && src.cutErr && n < |src.body| && Cut.EndsAt(src.body, n) && Cut.CutAt(src.body, n)
    requires var r := Run(Reset(mode), src.cutEvents, Control.RawControl(src.body));
             r.Ok? && Between(r.v) && r.v.peak <= SKIP_DEPTH
    ensures Decides(mode, End(Run(Reset(mode), src.cutEvents, Control.RawControl(src.body)).v), RootFailures(src), src.tree)
  {
    var rawCtl := Control.RawControl(src.body);
    CutIsWhole(mode, src, n, rawCtl);
    CutAgrees(mode, src.tree.members, src.tree.raw, rawCtl);
    WholeRun(mode, src.tree, rawCtl);
  }

  /** The traversal of the cut body, and whether it ends where the root's end may be handed over. */
  method ReadCut(v: Visitor, src: Source, mode: Mode) returns (between: bool)
    requires v.Valid()
    modifies v, v.stack
    ensures v.Valid()
    ensures between ==>
              src.cutErr &&
              var r := Run(Reset(mode), src.cutEvents, Control.RawControl(src.body));
              r == Ok(v.View()) && Between(r.v) && r.v.peak <= SKIP_DEPTH
  {
    v.Reset(src.body, mode);
    var stopped := v.Preorder(src.cutEvents);
    var at := v.BetweenRootMembers();
    between := stopped.None? && src.cutErr && at && v.peak <= SKIP_DEPTH;
  }

  /** The cut traversal's decision, when it is taken, is the whole traversal's. */
  method TraverseCut(v: Visitor, src: Source, mode: Mode) returns (taken: bool, err: Option<Reason>)
    requires v.Valid() && Parsed(src)
    modifies v, v.stack
    ensures v.Valid()
    ensures taken ==> err == RootFailures(src)
    ensures taken && err.None? ==> src.tree.Obj? && Knows(mode, v.View(), src.tree.members)
  {
    taken, err := false, None;
    var n := Cut.CutPoint(src.body);
    if n > 0 {
      taken := ReadCut(v, src, mode);
      if taken {
        CutDecides(mode, src, n);
        err := v.End();
      }
    }
  }

  /** The whole traversal's run over what the parser delivers. */
  lemma WholeDecides(mode: Mode, src: Source)
    requires Parsed(src)
    ensures var r := Run(Reset(mode), Delivered(src), Control.RawControl(src.body));
            match src.stop
            case Closed(_) => Decides(mode, r, ScanRoot(src.tree, Control.RawControl(src.body)), src.tree)
            case Broken(_, _) => Fails(r, ScanEvents(Delivered(src), Control.RawControl(src.body)))
  {
    if src.stop.Closed? {
      assert Delivered(src) == Events(src.tree);
      WholeRun(mode, src.tree, Control.RawControl(src.body));
    } else {
      PrefixScan(mode, src.tree, |src.ends|, Control.RawControl(src.body));
    }
  }

  /** traverseWhole */
  method TraverseWhole(v: Visitor, src: Source, mode: Mode) returns (err: Option<Reason>)
    requires v.Valid() && Parsed(src)
    modifies v, v.stack
    ensures v.Valid()
    ensures err == RootFailures(src)
    ensures err.None? ==> src.tree.Obj? && Knows(mode, v.View(), src.tree.members)
  {
    v.Reset(src.body, mode);
    WholeDecides(mode, src);
    err := v.Preorder(Delivered(src));
    if err.None? {
      match src.stop {
        case Closed(trailing) => err := trailing;
        case Broken(_, reason) => err := Some(reason);
      }
    }
  }

  /** traverse: the cut changes no answer. */
  method Traverse(v: Visitor, src: Source, mode: Mode) returns (err: Option<Reason>)
    requires v.Valid() && Parsed(src)
    modifies v, v.stack
    ensures v.Valid()
    ensures err == RootFailures(src)
    ensures err.None? ==> src.tree.Obj? && Knows(mode, v.View(), src.tree.members)
  {
    var taken;
    taken, err := TraverseCut(v, src, mode);
    if !taken {
      err := TraverseWhole(v, src, mode);
    }
  }

  /**
    DecodeSystemOne: whatever was decoded before with this visitor, the result
    is the last-member-wins reading of the body's tree, and so is the first
    failure.
  */
  method DecodeSystemOne(v: Visitor, src: Source) returns (r: Decoded<SystemOneResult>, skipped: Skipped)
    requires v.Valid() && Parsed(src)
    modifies v, v.stack
    ensures v.Valid()
    ensures src.stop == Closed(None) ==> r == TreeDecode.DecodeSystemOne(src.tree, Control.RawControl(src.body))
    ensures RootFailures(src).Some? ==> r == Refused(RootFailure(RootFailures(src).value)) && skipped == Reported([])
    ensures RootFailures(src).None? ==> src.tree.Obj? && skipped == Reported(SkippedAnswers(AnswersOf(src.tree.members, false)))
  {
    var err := Traverse(v, src, SystemOne);
    match err {
      case Some(reason) =>
        r, skipped := Refused(RootFailure(reason)), Skipped([], 0);
      case None =>
        r, skipped := FinishSystemOne(v.top, v.entries, src.tree, v.View());
    }
  }

  /** DecodeModels */
  method DecodeModels(v: Visitor, src: Source) returns (r: Decoded<seq<ModelCard>>)
    requires v.Valid() && Parsed(src)
    modifies v, v.stack
    ensures v.Valid()
    ensures src.stop == Closed(None) ==> r == TreeDecode.DecodeModels(src.tree, Control.RawControl(src.body))
    ensures RootFailures(src).Some? ==> r == Refused(RootFailure(RootFailures(src).value))
  {
    var err := Traverse(v, src, Models);
    match err {
      case Some(reason) => r := Refused(RootFailure(reason));
      case None => r := FinishModels(v.cards, src.tree.members);
    }
  }
}
