/** What a reconcile's error does to the Ready condition and to the next reconcile. */
module Verdict {
  import opened Common

  /**
   Errors as the controllers build them. An HTTP error has a short form when the API's answer could be read;
   Wrap is fmt.Errorf with %w at the end; Terminal is controller-runtime's marker.
   */
  datatype Error =
    | Plain(text: string)
    | Http(text: string, short: Option<string>)
    | Progressing(text: string)
    | Failed(inner: Error)
    | Wrap(text: string, inner: Error)
    | Terminal(inner: Error)
    | Join(parts: seq<Error>)

  datatype Sort = AHttp | AProgressing | AFailed | ATerminal

  predicate Is(e: Error, sort: Sort) {
    match sort
    case AHttp => e.Http?
    case AProgressing => e.Progressing?
    case AFailed => e.Failed?
    case ATerminal => e.Terminal?
  }

  /** errors.As: the tree is searched depth first, a node before what it wraps. */
  function As(e: Error, sort: Sort): (found: Option<Error>)
    ensures found.Some? ==> Is(found.value, sort)
    decreases e, if e.Join? then |e.parts| + 1 else 0
  {
    if Is(e, sort) then Some(e) else
      match e
      case Failed(inner) => As(inner, sort)
      case Wrap(_, inner) => As(inner, sort)
      case Terminal(inner) => As(inner, sort)
      case Join(_) => AsPart(e, 0, sort)
      case _ => None
  }

  function AsPart(e: Error, i: nat, sort: Sort): (found: Option<Error>)
    requires e.Join? && i <= |e.parts|
    ensures found.Some? ==> Is(found.value, sort)
    decreases e, |e.parts| - i
  {
    if i == |e.parts| then None
    else if As(e.parts[i], sort).Some? then As(e.parts[i], sort)
    else AsPart(e, i + 1, sort)
  }

  function Text(e: Error): string
    decreases e, if e.Join? then |e.parts| + 1 else 0
  {
    match e
    case Plain(text) => text
    case Http(text, _) => text
    case Progressing(text) => text
    case Failed(inner) => Text(inner)
    case Wrap(text, inner) => text + ": " + Text(inner)
    case Terminal(inner) => "terminal error: " + Text(inner)
    case Join(parts) => TextFrom(e, 0)
  }

  function TextFrom(e: Error, i: nat): string
    requires e.Join? && i <= |e.parts|
    decreases e, |e.parts| - i
  {
    if i == |e.parts| then ""
    else Text(e.parts[i]) + (if i + 1 < |e.parts| then "\n" else "") + TextFrom(e, i + 1)
  }

  /** Lines of text, one below the other. */
  function Lines(texts: seq<string>): string {
    if texts == [] then "" else if |texts| == 1 then texts[0] else texts[0] + "\n" + Lines(texts[1..])
  }

  function Texts(parts: seq<Error>): seq<string> {
    seq(|parts|, i requires 0 <= i < |parts| => Text(parts[i]))
  }

  /** errors.Join puts its parts' texts on lines of their own. */
  lemma JoinedText(parts: seq<Error>)
    ensures Text(Join(parts)) == Lines(Texts(parts))
  {
    TextFromIsLines(Join(parts), 0);
    assert Texts(parts)[0..] == Texts(parts);
  }

  lemma {:induction false} TextFromIsLines(e: Error, i: nat)
    requires e.Join? && i <= |e.parts|
    ensures TextFrom(e, i) == Lines(Texts(e.parts)[i..])
    decreases |e.parts| - i
  {
    if i < |e.parts| {
      TextFromIsLines(e, i + 1);
      var rest := Texts(e.parts)[i..];
      assert rest[0] == Text(e.parts[i]) && rest[1..] == Texts(e.parts)[i + 1..];
      assert i + 1 == |e.parts| ==> TextFrom(e, i + 1) == "";
    }
  }

  /** oxideclient.ShortError: the first API error found becomes the whole error, in one line. */
  function ShortError(e: Error): Error {
    var http := As(e, AHttp);
    if http.Some? && http.value.short.Some? then Plain(http.value.short.value) else e
  }

  // --- Where things are in a tree ---

  /** The node reached by taking the given child at each level. */
  function At(e: Error, path: seq<nat>): Option<Error>
    decreases |path|
  {
    if path == [] then Some(e) else
      match e
      case Failed(inner) => if path[0] == 0 then At(inner, path[1..]) else None
      case Wrap(_, inner) => if path[0] == 0 then At(inner, path[1..]) else None
      case Terminal(inner) => if path[0] == 0 then At(inner, path[1..]) else None
      case Join(parts) => if path[0] < |parts| then At(parts[path[0]], path[1..]) else None
      case _ => None
  }

  predicate OccursAt(e: Error, path: seq<nat>, sort: Sort) {
    At(e, path).Some? && Is(At(e, path).value, sort)
  }

  ghost predicate Contains(e: Error, sort: Sort) {
    exists path :: OccursAt(e, path, sort)
  }

  /** Whole stands somewhere in text. */
  ghost predicate Holds(text: string, whole: string) {
    exists before: string, after: string :: text == before + whole + after
  }

  lemma HeldAround(left: string, text: string, right: string, whole: string)
    requires Holds(text, whole)
    ensures Holds(left + text + right, whole)
  {
    var before, after :| text == before + whole + after;
    assert left + text + right == (left + before) + whole + (after + right);
  }

  /** However deep an error is wrapped or joined, its text stands in the text of the whole. */
  lemma {:induction false} TextHoldsEveryPart(e: Error, path: seq<nat>)
    requires At(e, path).Some?
    ensures Holds(Text(e), Text(At(e, path).value))
    decreases |path|
  {
    if path == [] {
      assert Text(e) == "" + Text(e) + "";
    } else if Wraps(e) {
      TextHoldsEveryPart(e.inner, path[1..]);
      var left := if e.Wrap? then e.text + ": " else if e.Terminal? then "terminal error: " else "";
      HeldAround(left, Text(e.inner), "", Text(At(e, path).value));
      assert Text(e) == left + Text(e.inner) + "";
    } else {
      TextHoldsEveryPart(e.parts[path[0]], path[1..]);
      TextFromHolds(e, 0, path[0], Text(At(e, path).value));
    }
  }

  lemma {:induction false} TextFromHolds(e: Error, i: nat, j: nat, whole: string)
    requires e.Join? && i <= j < |e.parts| && Holds(Text(e.parts[j]), whole)
    ensures Holds(TextFrom(e, i), whole)
    decreases j - i
  {
    var gap := if i + 1 < |e.parts| then "\n" else "";
    var rest := TextFrom(e, i + 1);
    assert TextFrom(e, i) == Text(e.parts[i]) + gap + rest;
    if i == j {
      HeldAround("", Text(e.parts[i]), gap + rest, whole);
      assert TextFrom(e, i) == "" + Text(e.parts[i]) + (gap + rest);
    } else {
      TextFromHolds(e, i + 1, j, whole);
      HeldAround(Text(e.parts[i]) + gap, rest, "", whole);
      assert TextFrom(e, i) == (Text(e.parts[i]) + gap) + rest + "";
    }
  }

  /** p is met before q: an ancestor, or further left. */
  predicate Before(p: seq<nat>, q: seq<nat>) {
    q != [] && (p == [] || p[0] < q[0] || (p[0] == q[0] && Before(p[1..], q[1..])))
  }

  predicate Wraps(e: Error) {
    e.Failed? || e.Wrap? || e.Terminal?
  }

  lemma BelowWrap(e: Error, path: seq<nat>)
    requires Wraps(e)
    ensures At(e, [0] + path) == At(e.inner, path)
  {
    assert ([0] + path)[1..] == path;
  }

  lemma BelowJoin(e: Error, i: nat, path: seq<nat>)
    requires e.Join? && i < |e.parts|
    ensures At(e, [i] + path) == At(e.parts[i], path)
  {
    assert ([i] + path)[1..] == path;
  }

  /** What errors.As finds is in the tree, and nothing it would accept comes before it. */
  lemma {:induction false} AsFindsFirst(e: Error, sort: Sort) returns (path: seq<nat>)
    requires As(e, sort).Some?
    ensures At(e, path) == As(e, sort) && OccursAt(e, path, sort)
    ensures forall other :: Before(other, path) ==> !OccursAt(e, other, sort)
    decreases e, if e.Join? then |e.parts| + 1 else 0
  {
    if Is(e, sort) {
      path := [];
    } else if Wraps(e) {
      var below := AsFindsFirst(e.inner, sort);
      path := [0] + below;
      BelowWrap(e, below);
      assert path[1..] == below;
    } else {
      path := PartFindsFirst(e, 0, sort);
    }
  }

  lemma {:induction false} PartFindsFirst(e: Error, i: nat, sort: Sort) returns (path: seq<nat>)
    requires e.Join? && i <= |e.parts| && AsPart(e, i, sort).Some?
    ensures path != [] && path[0] >= i
    ensures At(e, path) == AsPart(e, i, sort) && OccursAt(e, path, sort)
    ensures forall other :: Before(other, path) && other != [] && other[0] >= i ==> !OccursAt(e, other, sort)
    decreases e, |e.parts| - i
  {
    if As(e.parts[i], sort).Some? {
      var below := AsFindsFirst(e.parts[i], sort);
      path := [i] + below;
      BelowJoin(e, i, below);
      assert path[1..] == below;
    } else {
      path := PartFindsFirst(e, i + 1, sort);
      forall other | other != [] && other[0] == i
        ensures !OccursAt(e, other, sort)
      {
        if OccursAt(e, other, sort) {
          AsFindsAll(e.parts[i], other[1..], sort);
        }
      }
    }
  }

  /** What is in the tree is not overlooked. */
  lemma {:induction false} AsFindsAll(e: Error, path: seq<nat>, sort: Sort)
    requires OccursAt(e, path, sort)
    ensures As(e, sort).Some?
    decreases |path|
  {
    if path != [] && !Is(e, sort) {
      if Wraps(e) {
        AsFindsAll(e.inner, path[1..], sort);
      } else {
        AsFindsAll(e.parts[path[0]], path[1..], sort);
        PartsFound(e, 0, path[0], sort);
      }
    }
  }

  lemma {:induction false} PartsFound(e: Error, i: nat, j: nat, sort: Sort)
    requires e.Join? && i <= j < |e.parts| && As(e.parts[j], sort).Some?
    ensures AsPart(e, i, sort).Some?
    decreases j - i
  {
    if i < j {
      PartsFound(e, i + 1, j, sort);
    }
  }

  lemma AsIffContains(e: Error, sort: Sort)
    ensures As(e, sort).Some? <==> Contains(e, sort)
  {
    if As(e, sort).Some? {
      var path := AsFindsFirst(e, sort);
    }
    forall path | OccursAt(e, path, sort) {
      AsFindsAll(e, path, sort);
    }
  }

  // --- The verdict ---

  /** In seconds. */
  const RESYNC_PERIOD: nat := 600
  const PROGRESS_PERIOD: nat := 10

  const TYPE_READY := "Ready"

  datatype Condition = Condition(kind: string, status: bool, reason: string, message: string)

  /** What the work queue is told; an error means backoff, unless it is marked terminal. */
  datatype Decision = Decision(condition: Condition, requeueAfter: nat, error: Option<Error>)

  function Decide(err: Option<Error>): Decision {
    if err.None? then
      Decision(Condition(TYPE_READY, true, "Reconciled", "In sync with Omicron"), RESYNC_PERIOD, None)
    else if As(err.value, AFailed).Some? then
      var short := ShortError(err.value);
      Decision(Condition(TYPE_READY, false, "Failed", Text(short)), 0, Some(Terminal(short)))
    else if As(err.value, AProgressing).Some? then
      Decision(Condition(TYPE_READY, false, "Progressing", Text(err.value)), PROGRESS_PERIOD, None)
    else
      var short := ShortError(err.value);
      Decision(Condition(TYPE_READY, false, "Error", Text(short)), 0, Some(short))
  }

  /** The object is looked at again without anything changing it. */
  ghost predicate Scheduled(d: Decision) {
    d.requeueAfter > 0 || (d.error.Some? && !Contains(d.error.value, ATerminal))
  }

  /** How bad an outcome is, told from the tree alone. */
  ghost function Grade(err: Option<Error>): nat {
    if err.None? then 0
    else if Contains(err.value, AFailed) then 3
    else if Contains(err.value, AProgressing) then 2
    else 1
  }

  /** The decision is told by what the tree contains, wherever it is: failure first, then progress. */
  lemma DecisionIsGrade(err: Option<Error>)
    ensures var d, grade := Decide(err), Grade(err);
            && (d.condition.status <==> grade == 0)
            && (d.condition.reason == "Reconciled" <==> grade == 0)
            && (d.condition.reason == "Failed" <==> grade == 3)
            && (d.condition.reason == "Progressing" <==> grade == 2)
            && (d.condition.reason == "Error" <==> grade == 1)
            && (grade == 3 ==> d.error.Some? && d.error.value.Terminal?)
            && (d.requeueAfter == RESYNC_PERIOD <==> grade == 0)
            && (d.requeueAfter == PROGRESS_PERIOD <==> grade == 2)
            && (d.error.Some? <==> grade in {1, 3})
            && (err.None? || !Contains(err.value, ATerminal) ==>
                  (grade == 3 <==> d.error.Some? && d.error.value.Terminal?))
  {
    if err.Some? {
      AsIffContains(err.value, AFailed);
      AsIffContains(err.value, AProgressing);
      assert err.value.Terminal? ==> OccursAt(err.value, [], ATerminal);
    }
    assert "Reconciled"[0] == 'R' && "Failed"[0] == 'F' && "Progressing"[0] == 'P' && "Error"[0] == 'E';
  }

  /**
   What is shown and returned: of a failure or any other error the short form of the first API error in the
   tree, or else the whole text; of progress always the whole text.
   */
  lemma MessageIs(err: Option<Error>)
    ensures var d, grade := Decide(err), Grade(err);
            && d.condition.kind == TYPE_READY
            && (grade == 0 ==> d.condition.message == "In sync with Omicron")
            && (grade == 2 ==> d.condition.message == Text(err.value))
            && (grade in {1, 3} ==>
                  var http := As(err.value, AHttp);
                  d.condition.message ==
                    if http.Some? && http.value.short.Some? then http.value.short.value else Text(err.value))
            && (grade == 1 ==> d.error.Some? && Text(d.error.value) == d.condition.message)
            && (grade == 3 ==>
                  d.error.Some? && d.error.value.Terminal? && Text(d.error.value.inner) == d.condition.message)
  {
    if err.Some? {
      AsIffContains(err.value, AFailed);
      AsIffContains(err.value, AProgressing);
    }
  }

  lemma PlainContainsNothing(text: string, sort: Sort)
    ensures !Contains(Plain(text), sort)
  {
    AsIffContains(Plain(text), sort);
  }

  /** Only a failure is left alone, or an error already marked terminal that no API error hides. */
  lemma UnscheduledIff(err: Option<Error>)
    ensures !Scheduled(Decide(err)) <==>
            Grade(err) == 3 || (Grade(err) == 1 && Contains(err.value, ATerminal) && ShortError(err.value) == err.value)
  {
    DecisionIsGrade(err);
    if err.Some? {
      var d := Decide(err);
      if d.error.Some? && d.error.value.Terminal? {
        assert OccursAt(d.error.value, [], ATerminal);
      }
      if ShortError(err.value) != err.value {
        PlainContainsNothing(ShortError(err.value).text, ATerminal);
      }
    }
  }

  /** Errors no controller marked terminal: exactly the failures are left unscheduled. */
  lemma OnlyFailuresAreUnscheduled(err: Option<Error>)
    requires err.Some? ==> !Contains(err.value, ATerminal)
    ensures !Scheduled(Decide(err)) <==> err.Some? && Contains(err.value, AFailed)
  {
    UnscheduledIff(err);
  }

  /**
   A failure's condition keeps the text of the whole error if and only if no API error in the tree has a
   short form, or the first one's is that very text: otherwise that short form is all there is.
   */
  lemma FailureTextIsKeptIff(err: Error)
    requires Contains(err, AFailed)
    ensures var condition, http := Decide(Some(err)).condition, As(err, AHttp);
            && condition.reason == "Failed"
            && (condition.message == Text(err) <==>
                http.None? || http.value.short.None? || http.value.short.value == Text(err))
            && (http.Some? && http.value.short.Some? ==> condition.message == http.value.short.value)
  {
    AsIffContains(err, AFailed);
  }

  /** The condition says Failed, but its message is that of the first API error in the tree, if there is one. */
  lemma CleanupCanHideTheReason(reason: string, full: string, short: string)
    ensures var err := Join([Failed(Plain(reason)), Http(full, Some(short))]);
            Decide(Some(err)).condition == Condition(TYPE_READY, false, "Failed", short)
  {
    var err := Join([Failed(Plain(reason)), Http(full, Some(short))]);
    assert As(err.parts[0], AFailed).Some? && As(err.parts[0], AHttp).None?;
    assert AsPart(err, 0, AFailed).Some?;
    assert err.parts[1] == Http(full, Some(short)) && As(err.parts[1], AHttp) == Some(err.parts[1]);
    assert AsPart(err, 1, AHttp) == AsPart(err, 0, AHttp) == As(err, AHttp) == Some(err.parts[1]);
    assert ShortError(err) == Plain(short);
  }

  // --- Joining ---

  /** errors.Join: nils are dropped, and nothing but nils is nil. */
  function JoinErrors(errs: seq<Option<Error>>): Option<Error> {
    var parts := Present(errs);
    if parts == [] then None else Some(Join(parts))
  }

  function Present(errs: seq<Option<Error>>): (parts: seq<Error>)
    ensures forall e :: e in parts <==> Some(e) in errs
  {
    if errs == [] then [] else
      Present(errs[..|errs| - 1]) + (match errs[|errs| - 1] case Some(e) => [e] case None => [])
  }

  lemma PartAlone(e: Error)
    ensures Present([Some(e)]) == [e]
  {
    assert [Some(e)][..0] == [];
  }

  /** Nils apart, the parts come in the order given. */
  lemma {:induction false} PartsInOrder(errs: seq<Option<Error>>, more: seq<Option<Error>>)
    ensures Present(errs + more) == Present(errs) + Present(more)
  {
    if more == [] {
      assert errs + more == errs;
    } else {
      var last := |more| - 1;
      PartsInOrder(errs, more[..last]);
      assert (errs + more)[..|errs| + last] == errs + more[..last];
    }
  }

  lemma JoinContains(parts: seq<Error>, sort: Sort)
    ensures Contains(Join(parts), sort) <==> exists e :: e in parts && Contains(e, sort)
  {
    forall path | OccursAt(Join(parts), path, sort)
      ensures exists e :: e in parts && Contains(e, sort)
    {
      var e := parts[path[0]];
      assert OccursAt(e, path[1..], sort);
      assert e in parts && Contains(e, sort);
    }
    forall i, path | 0 <= i < |parts| && OccursAt(parts[i], path, sort)
      ensures Contains(Join(parts), sort)
    {
      BelowJoin(Join(parts), i, path);
      assert OccursAt(Join(parts), [i] + path, sort);
    }
  }

  /** A joined error is as bad as the worst of its parts, whatever their order: cleanup cannot hide a failure. */
  lemma JoinIsAsBadAsItsWorst(errs: seq<Option<Error>>)
    ensures forall e :: e in errs ==> Grade(e) <= Grade(JoinErrors(errs))
    ensures Grade(JoinErrors(errs)) == 0 || exists e :: e in errs && Grade(e) == Grade(JoinErrors(errs))
  {
    var parts := Present(errs);
    JoinContains(parts, AFailed);
    JoinContains(parts, AProgressing);
    if parts != [] {
      var joined := Grade(JoinErrors(errs));
      if joined == 3 {
        var e :| e in parts && Contains(e, AFailed);
        assert Some(e) in errs && Grade(Some(e)) == joined;
      } else if joined == 2 {
        var e :| e in parts && Contains(e, AProgressing);
        assert Some(e) in errs && Grade(Some(e)) == joined;
      } else {
        assert parts[0] in parts;
        assert Some(parts[0]) in errs && Grade(Some(parts[0])) == joined;
      }
    }
  }

  // --- The object's status ---

  function Find(conditions: seq<Condition>, kind: string): Option<Condition> {
    if conditions == [] then None
    else if conditions[0].kind == kind then Some(conditions[0])
    else Find(conditions[1..], kind)
  }

  /** meta.SetStatusCondition. */
  function SetCondition(conditions: seq<Condition>, condition: Condition): seq<Condition> {
    if conditions == [] then [condition]
    else if conditions[0].kind == condition.kind then [condition] + conditions[1..]
    else [conditions[0]] + SetCondition(conditions[1..], condition)
  }

  lemma {:induction false} SetConditionFinds(conditions: seq<Condition>, condition: Condition, kind: string)
    ensures Find(SetCondition(conditions, condition), kind) ==
            if kind == condition.kind then Some(condition) else Find(conditions, kind)
  {
    if conditions != [] {
      SetConditionFinds(conditions[1..], condition, kind);
    }
  }

  /** No two conditions of one kind. */
  predicate OneOf(conditions: seq<Condition>, kind: string) {
    forall i, j :: 0 <= i < j < |conditions| && conditions[i].kind == kind ==> conditions[j].kind != kind
  }

  /** The condition takes the place of the first of its kind, or comes last; no other one moves or changes. */
  lemma {:induction false} SetConditionReplaces(conditions: seq<Condition>, condition: Condition) returns (at: nat)
    ensures var after := SetCondition(conditions, condition);
            && at < |after| && after[at] == condition
            && (forall i :: 0 <= i < at ==> i < |conditions| && conditions[i].kind != condition.kind)
            && (at < |conditions| ==> conditions[at].kind == condition.kind && |after| == |conditions|)
            && (at >= |conditions| ==> at == |conditions| && |after| == |conditions| + 1)
            && (forall i :: 0 <= i < |conditions| && i != at ==> after[i] == conditions[i])
  {
    if conditions == [] || conditions[0].kind == condition.kind {
      at := 0;
    } else {
      var below := SetConditionReplaces(conditions[1..], condition);
      at := below + 1;
    }
  }

  datatype Event = Warning(reason: string, message: string)

  class Status {
    var conditions: seq<Condition>
    var events: seq<Event>

    method SetReady(err: Option<Error>) returns (requeueAfter: nat, out: Option<Error>)
      modifies this
      ensures var d := Decide(err);
              && requeueAfter == d.requeueAfter && out == d.error
              && conditions == SetCondition(old(conditions), d.condition)
              && events == old(events) + (if Grade(err) in {1, 3}
                  then [Warning(d.condition.reason, d.condition.message)] else [])
      ensures Find(conditions, TYPE_READY).Some? && (Find(conditions, TYPE_READY).value.status <==> err.None?)
      ensures forall kind :: kind != TYPE_READY ==> Find(conditions, kind) == Find(old(conditions), kind)
      ensures |conditions| == |old(conditions)| +
                              (if exists c :: c in old(conditions) && c.kind == TYPE_READY then 0 else 1)
      ensures forall i :: 0 <= i < |old(conditions)| && old(conditions)[i].kind != TYPE_READY ==>
                            conditions[i] == old(conditions)[i]
      ensures OneOf(old(conditions), TYPE_READY) ==>
                exists at :: 0 <= at < |conditions| && conditions[at] == Decide(err).condition
                             && forall i :: 0 <= i < |conditions| && i != at ==> conditions[i].kind != TYPE_READY
    {
      var cond := Condition(TYPE_READY, true, "Reconciled", "In sync with Omicron");
      requeueAfter, out := RESYNC_PERIOD, err;
      if err.Some? {
        if As(err.value, AFailed).Some? {
          var short := ShortError(err.value);
          cond := cond.(status := false, reason := "Failed", message := Text(short));
          requeueAfter, out := 0, Some(Terminal(short));
        } else if As(err.value, AProgressing).Some? {
          cond := cond.(status := false, reason := "Progressing", message := Text(err.value));
          requeueAfter, out := PROGRESS_PERIOD, None;
        } else {
          var short := ShortError(err.value);
          cond := cond.(status := false, reason := "Error", message := Text(short));
          requeueAfter, out := 0, Some(short);
        }
      }
      DecisionIsGrade(err);
      forall kind {
        SetConditionFinds(conditions, cond, kind);
      }
      ghost var at := SetConditionReplaces(conditions, cond);
      conditions := SetCondition(conditions, cond);
      assert conditions[at] == Decide(err).condition;
      if out.Some? {
        events := events + [Warning(cond.reason, cond.message)];
      }
    }
  }
}
