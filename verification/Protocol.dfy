/** The question protocol: what one Run and one operator resolution do to the plan. The
    methods of Engine change a session step by step and are specified by the functions
    here; what holds over whole runs is proved in PlanRuns and Fixpoint. */
module Protocol {
  import opened Sorting
  import opened Wrappers

  datatype Category =
    | ApplicationLogs | InfrastructureEvents | DeploymentEvents | AlertEvents | Metrics | TraceEvents
    | ConfigurationChanges | NetworkEvents | DatabaseEvents | SecurityEvents | HumanContext | Custom

  datatype QuestionStatus = Unknown | WaitingForEvidence | PartiallyAnswered | Answered | Rejected

  datatype Outcome = Confirmed | Refused

  datatype Resolution = Resolution(questionId: string, status: Outcome, confidence: real)

  datatype Question = Question(id: string, priority: int, status: QuestionStatus, confidence: real,
                               required: seq<Category>, dependsOn: seq<string>, resolution: Option<Resolution>)
  {
    predicate Open() { status != Answered && status != Rejected }
    predicate IsConfirmed() { resolution.Some? && resolution.value.status == Confirmed }
  }

  datatype Effect = Effect(whenTrue: bool, increase: bool, hypothesisId: string, amount: real)

  datatype PlaybookQuestion = PlaybookQuestion(id: string, priority: int, required: seq<Category>,
                                               dependsOn: seq<string>, effects: seq<Effect>, trigger: string,
                                               generates: seq<string>)

  type Playbook = seq<PlaybookQuestion>

  datatype Verdict = Inconclusive | Decided(status: Outcome, confidence: real)

  /** What the evidence and its signals say: categories present, triggers that fire and
      the verdict of the resolver's table for each question id. */
  datatype World = World(present: set<Category>, triggers: string -> bool, verdict: string -> Verdict)

  // ----- Pure parts -----

  function ToQuestion(pq: PlaybookQuestion): Question {
    Question(pq.id, pq.priority, WaitingForEvidence, 0.0, pq.required, pq.dependsOn, None)
  }

  function IdSet(qs: seq<Question>): set<string> { set q | q in qs :: q.id }

  function AnsweredIds(qs: seq<Question>): set<string> { set q | q in qs && q.status == Answered :: q.id }

  predicate DependenciesMet(qs: seq<Question>, deps: seq<string>) {
    forall d | d in deps :: d in AnsweredIds(qs)
  }

  function MissingOf(required: seq<Category>, present: set<Category>): seq<Category> {
    Filter(required, (c: Category) => c !in present)
  }

  /** Nothing without required evidence; nothing until all of it is present. */
  function Resolve(id: string, required: seq<Category>, w: World): Option<Resolution> {
    if required == [] || (exists c | c in required :: c !in w.present) then None
    else match w.verdict(id)
      case Inconclusive => None
      case Decided(status, confidence) => Some(Resolution(id, status, confidence))
  }

  function PresentCount(required: seq<Category>, present: set<Category>): nat {
    |Filter(required, (c: Category) => c in present)|
  }

  function PartialStatus(q: Question, present: set<Category>): QuestionStatus {
    var n := PresentCount(q.required, present);
    if n == 0 then WaitingForEvidence
    else if n < |q.required| then PartiallyAnswered
    else q.status
  }

  function Closing(res: Resolution): QuestionStatus {
    if res.status == Confirmed then Answered else Rejected
  }

  function ResolveOne(q: Question, w: World): Question {
    if !q.Open() then q
    else match Resolve(q.id, q.required, w)
      case None => q.(status := PartialStatus(q, w.present))
      case Some(res) => q.(status := Closing(res), confidence := res.confidence, resolution := Some(res))
  }

  function ResolveAll(qs: seq<Question>, w: World): (rs: seq<Question>)
    ensures |rs| == |qs|
  {
    if qs == [] then [] else ResolveAll(qs[..|qs| - 1], w) + [ResolveOne(qs[|qs| - 1], w)]
  }

  lemma ResolveSnoc(qs: seq<Question>, i: nat, w: World)
    requires i < |qs|
    ensures (ResolveAll(qs[..i], w) + qs[i..])[i] == qs[i]
    ensures (ResolveAll(qs[..i], w) + qs[i..])[i := ResolveOne(qs[i], w)] == ResolveAll(qs[..i + 1], w) + qs[i + 1..]
    ensures NewResolutions(qs[..i + 1], w) == NewResolutions(qs[..i], w) + NewResolution(qs[i], w)
  {
    assert qs[..i + 1][..i] == qs[..i];
  }

  function NewResolution(q: Question, w: World): seq<Resolution> {
    if !q.Open() then []
    else match Resolve(q.id, q.required, w)
      case None => []
      case Some(res) => [res]
  }

  function NewResolutions(qs: seq<Question>, w: World): seq<Resolution> {
    if qs == [] then [] else NewResolutions(qs[..|qs| - 1], w) + NewResolution(qs[|qs| - 1], w)
  }

  /** Appends, in playbook order, each eligible question that is not in the plan yet. */
  function AppendAll(pb: Playbook, eligible: PlaybookQuestion -> bool, qs: seq<Question>): seq<Question>
    decreases |pb|
  {
    if pb == [] then qs
    else if eligible(pb[0]) && pb[0].id !in IdSet(qs) then AppendAll(pb[1..], eligible, qs + [ToQuestion(pb[0])])
    else AppendAll(pb[1..], eligible, qs)
  }

  predicate Static(answered: set<string>, pq: PlaybookQuestion) {
    pq.trigger == "" && forall d | d in pq.dependsOn :: d in answered
  }

  predicate Dynamic(answered: set<string>, w: World, pq: PlaybookQuestion) {
    pq.trigger != "" && w.triggers(pq.trigger) && forall d | d in pq.dependsOn :: d in answered
  }

  function EnsureQuestions(pb: Playbook, qs: seq<Question>): seq<Question> {
    var answered := AnsweredIds(qs);
    AppendAll(pb, pq => Static(answered, pq), qs)
  }

  function TriggerQuestions(pb: Playbook, w: World, qs: seq<Question>): seq<Question> {
    var answered := AnsweredIds(qs);
    AppendAll(pb, pq => Dynamic(answered, w, pq), qs)
  }

  function ParentGenerates(pb: Playbook, id: string): seq<string> {
    if pb == [] then []
    else if pb[0].id == id then pb[0].generates
    else ParentGenerates(pb[1..], id)
  }

  function ChildrenOf(pb: Playbook, parent: Question, qs: seq<Question>): seq<Question> {
    if parent.IsConfirmed() then
      var gens := ParentGenerates(pb, parent.id);
      AppendAll(pb, (pq: PlaybookQuestion) => pq.id in gens, qs)
    else qs
  }

  function GenerateChildren(pb: Playbook, parents: seq<Question>, qs: seq<Question>): seq<Question> {
    if parents == [] then qs
    else ChildrenOf(pb, parents[|parents| - 1], GenerateChildren(pb, parents[..|parents| - 1], qs))
  }

  function GenerateDynamic(pb: Playbook, w: World, qs: seq<Question>): seq<Question> {
    var t := TriggerQuestions(pb, w, qs);
    GenerateChildren(pb, t, t)
  }

  /** One round of asking: static questions, triggered questions, then children of
      confirmed questions; the children skip the dependency test. */
  function Extend(pb: Playbook, w: World, qs: seq<Question>): seq<Question> {
    GenerateDynamic(pb, w, EnsureQuestions(pb, qs))
  }

  datatype Plan = Plan(questions: seq<Question>, history: seq<Resolution>)

  /** Ask, resolve, ask again. */
  function RunPlan(pb: Playbook, w: World, p: Plan): Plan {
    var asked := Extend(pb, w, p.questions);
    Plan(Extend(pb, w, ResolveAll(asked, w)), p.history + NewResolutions(asked, w))
  }

  function IndexOf(qs: seq<Question>, id: string): Option<nat> {
    if qs == [] then None
    else if qs[0].id == id then Some(0)
    else match IndexOf(qs[1..], id)
      case None => None
      case Some(i) => Some(i + 1)
  }

  function Forced(q: Question, confirmed: bool): Resolution {
    Resolution(q.id, if confirmed then Confirmed else Refused, 91.0)
  }

  /** The operator's resolution: applies to a resolved question as well. */
  function ForcePlan(p: Plan, id: string, confirmed: bool): Option<Plan> {
    match IndexOf(p.questions, id)
    case None => None
    case Some(i) =>
      FindIndex(p.questions, id);
      var q := p.questions[i];
      var res := Forced(q, confirmed);
      Some(Plan(p.questions[i := q.(status := Closing(res), confidence := 91.0, resolution := Some(res))],
                p.history + [res]))
  }

  lemma {:induction false} FindIndex(qs: seq<Question>, id: string)
    ensures match IndexOf(qs, id)
            case None => forall q :: q in qs ==> q.id != id
            case Some(i) => i < |qs| && qs[i].id == id && forall j :: 0 <= j < i ==> qs[j].id != id
  {
    if qs != [] && qs[0].id != id {
      FindIndex(qs[1..], id);
    }
  }

  // ----- Evidence requests -----

  datatype Priority = High | Medium | Low

  datatype Request = Request(questionId: string, categories: seq<Category>, priority: Priority, gain: real)

  datatype LegacyRequest = LegacyRequest(category: Category, priority: Priority)

  function Clamp(v: real, lo: real, hi: real): real { if v < lo then lo else if v > hi then hi else v }

  function ExpectedGain(q: Question, missing: seq<Category>): real {
    Clamp(q.priority as real / 3.0 + |missing| as real * 8.0, 10.0, 40.0)
  }

  function PriorityFor(q: Question): Priority {
    if q.priority >= 80 then High else if q.priority >= 50 then Medium else Low
  }

  function RequestFor(q: Question, present: set<Category>): Request {
    var missing := MissingOf(q.required, present);
    Request(q.id, missing, PriorityFor(q), ExpectedGain(q, missing))
  }

  predicate Prior(a: Question, b: Question) { a.priority > b.priority }

  predicate Gainful(a: Request, b: Request) { a.gain > b.gain }

  function OpenQuestions(qs: seq<Question>): seq<Question> {
    StableSort(Filter(qs, (q: Question) => q.Open()), Prior)
  }

  /** One request per open question that lacks evidence. */
  function Candidates(open: seq<Question>, present: set<Category>): seq<Request> {
    if open == [] then []
    else
      var n := |open| - 1;
      Candidates(open[..n], present)
      + if MissingOf(open[n].required, present) == [] then [] else [RequestFor(open[n], present)]
  }

  function TakeTwo(rs: seq<Request>): seq<Request> { if |rs| > 2 then rs[..2] else rs }

  function ChosenRequests(qs: seq<Question>, present: set<Category>): seq<Request> {
    TakeTwo(StableSort(Candidates(OpenQuestions(qs), present), Gainful))
  }

  function Legacy(rs: seq<Request>): seq<LegacyRequest> {
    if rs == [] then []
    else
      var n := |rs| - 1;
      Legacy(rs[..n]) + if rs[n].categories == [] then [] else [LegacyRequest(rs[n].categories[0], rs[n].priority)]
  }

  function CategoryRequests(q: Question, cats: seq<Category>): seq<LegacyRequest> {
    if cats == [] then []
    else CategoryRequests(q, cats[..|cats| - 1]) + [LegacyRequest(cats[|cats| - 1], PriorityFor(q))]
  }

  function Fallback(open: seq<Question>): seq<LegacyRequest> {
    if open == [] then []
    else
      var n := |open| - 1;
      Fallback(open[..n]) + CategoryRequests(open[n], open[n].required)
  }

  function RequiredEvidence(qs: seq<Question>, present: set<Category>): seq<LegacyRequest> {
    var legacy := Legacy(ChosenRequests(qs, present));
    if legacy != [] then legacy else Fallback(OpenQuestions(qs))
  }

  function MissingEvidence(qs: seq<Question>, present: set<Category>): seq<LegacyRequest> {
    Filter(RequiredEvidence(qs, present), (r: LegacyRequest) => r.category !in present)
  }

  // ----- The engine on a session -----

  class Session {
    var questions: seq<Question>
    var history: seq<Resolution>
    var requests: seq<Request>
    var required: seq<LegacyRequest>
    var missing: seq<LegacyRequest>
    var open: seq<string>
    var completed: seq<string>

    constructor ()
      ensures questions == [] && history == [] && requests == [] && open == [] && completed == []
    {
      questions, history, requests, required, missing, open, completed := [], [], [], [], [], [], [];
    }

    ghost function Value(): Plan
      reads this
    {
      Plan(questions, history)
    }
  }

  function IdsWhere(qs: seq<Question>, keep: Question -> bool): seq<string> {
    if qs == [] then []
    else IdsWhere(qs[..|qs| - 1], keep) + if keep(qs[|qs| - 1]) then [qs[|qs| - 1].id] else []
  }

  class Engine {
    const playbook: Playbook

    constructor (pb: Playbook)
      ensures playbook == pb
    {
      playbook := pb;
    }

    method Ensure(s: Session)
      modifies s`questions
      ensures s.questions == EnsureQuestions(playbook, old(s.questions))
    {
      ghost var answered := AnsweredIds(s.questions);
      var existing := IdSet(s.questions);
      for i := 0 to |playbook|
        invariant existing == IdSet(s.questions) && AnsweredIds(s.questions) == answered
        invariant AppendAll(playbook[i..], pq => Static(answered, pq), s.questions)
               == EnsureQuestions(playbook, old(s.questions))
      {
        var pq := playbook[i];
        if pq.trigger != "" {
          continue;
        }
        if !DependenciesMet(s.questions, pq.dependsOn) {
          continue;
        }
        if pq.id in existing {
          continue;
        }
        s.questions := s.questions + [ToQuestion(pq)];
        existing := existing + {pq.id};
      }
    }

    method Generate(s: Session, w: World)
      modifies s`questions
      ensures s.questions == GenerateDynamic(playbook, w, old(s.questions))
    {
      ghost var answered := AnsweredIds(s.questions);
      var existing := IdSet(s.questions);
      for i := 0 to |playbook|
        invariant existing == IdSet(s.questions) && AnsweredIds(s.questions) == answered
        invariant AppendAll(playbook[i..], pq => Dynamic(answered, w, pq), s.questions)
               == TriggerQuestions(playbook, w, old(s.questions))
      {
        var pq := playbook[i];
        if && pq.trigger != "" && pq.id !in existing
           && w.triggers(pq.trigger) && DependenciesMet(s.questions, pq.dependsOn) {
          s.questions := s.questions + [ToQuestion(pq)];
          existing := existing + {pq.id};
        }
      }
      var parents := s.questions;
      for k := 0 to |parents|
        invariant existing == IdSet(s.questions)
        invariant s.questions == GenerateChildren(playbook, parents[..k], parents)
      {
        assert parents[..k + 1][..k] == parents[..k];
        if parents[k].IsConfirmed() {
          Unlock(s, parents[k], existing);
          existing := IdSet(s.questions);
        }
      }
      assert parents[..|parents|] == parents;
    }

    /** For every playbook question and every generated id: append it when they match. */
    method Unlock(s: Session, parent: Question, existing0: set<string>)
      requires existing0 == IdSet(s.questions) && parent.IsConfirmed()
      modifies s`questions
      ensures s.questions == ChildrenOf(playbook, parent, old(s.questions))
    {
      var existing := existing0;
      var gens := ParentGenerates(playbook, parent.id);
      for i := 0 to |playbook|
        invariant existing == IdSet(s.questions)
        invariant AppendAll(playbook[i..], (pq: PlaybookQuestion) => pq.id in gens, s.questions)
               == ChildrenOf(playbook, parent, old(s.questions))
      {
        var pq := playbook[i];
        ghost var before := s.questions;
        for j := 0 to |gens|
          invariant existing == IdSet(s.questions)
          invariant s.questions ==
            if pq.id in gens[..j] && pq.id !in IdSet(before) then before + [ToQuestion(pq)] else before
        {
          assert gens[..j + 1] == gens[..j] + [gens[j]];
          if pq.id != gens[j] || pq.id in existing {
            continue;
          }
          s.questions := s.questions + [ToQuestion(pq)];
          existing := existing + {pq.id};
        }
        assert gens[..|gens|] == gens;
      }
    }

    method ResolveAt(s: Session, i: nat, w: World) returns (found: seq<Resolution>)
      requires i < |s.questions|
      modifies s`questions, s`history
      ensures s.questions == old(s.questions)[i := ResolveOne(old(s.questions)[i], w)]
      ensures found == NewResolution(old(s.questions)[i], w) && s.history == old(s.history) + found
    {
      var q := s.questions[i];
      found := [];
      if !q.Open() {
        return;
      }
      match Resolve(q.id, q.required, w) {
        case None =>
          s.questions := s.questions[i := q.(status := PartialStatus(q, w.present))];
        case Some(res) =>
          var closed := q.(status := Closing(res), confidence := res.confidence, resolution := Some(res));
          s.questions := s.questions[i := closed];
          s.history := s.history + [res];
          found := [res];
      }
    }

    method ResolveQuestions(s: Session, w: World) returns (resolved: seq<Resolution>)
      modifies s`questions, s`history
      ensures s.questions == ResolveAll(old(s.questions), w)
      ensures resolved == NewResolutions(old(s.questions), w)
      ensures s.history == old(s.history) + resolved
    {
      resolved := [];
      ghost var before := s.questions;
      for i := 0 to |s.questions|
        invariant s.questions == ResolveAll(before[..i], w) + before[i..]
        invariant resolved == NewResolutions(before[..i], w)
        invariant s.history == old(s.history) + resolved
      {
        ResolveSnoc(before, i, w);
        var found := ResolveAt(s, i, w);
        resolved := resolved + found;
      }
      assert before[..|before|] == before;
    }

    method SyncRequests(s: Session, w: World)
      modifies s`requests, s`required, s`missing
      ensures s.requests == ChosenRequests(s.questions, w.present)
      ensures s.required == RequiredEvidence(s.questions, w.present)
      ensures s.missing == MissingEvidence(s.questions, w.present)
    {
      var open := OpenQuestions(s.questions);
      var rs: seq<Request> := [];
      for i := 0 to |open|
        invariant rs == Candidates(open[..i], w.present)
      {
        assert open[..i + 1][..i] == open[..i];
        var missing := MissingOf(open[i].required, w.present);
        if missing == [] {
          continue;
        }
        rs := rs + [Request(open[i].id, missing, PriorityFor(open[i]), ExpectedGain(open[i], missing))];
      }
      assert open[..|open|] == open;
      rs := StableSort(rs, Gainful);
      if |rs| > 2 {
        rs := rs[..2];
      }
      s.requests := rs;
      s.required := Legacy(rs);
      if s.required == [] {
        s.required := Fallback(open);
      }
      s.missing := Filter(s.required, (r: LegacyRequest) => r.category !in w.present);
    }

    method UpdateLists(s: Session)
      modifies s`open, s`completed
      ensures s.open == IdsWhere(s.questions, (q: Question) => q.Open())
      ensures s.completed == IdsWhere(s.questions, (q: Question) => !q.Open())
    {
      s.open, s.completed := [], [];
      for i := 0 to |s.questions|
        invariant s.open == IdsWhere(s.questions[..i], (q: Question) => q.Open())
        invariant s.completed == IdsWhere(s.questions[..i], (q: Question) => !q.Open())
      {
        assert s.questions[..i + 1][..i] == s.questions[..i];
        var q := s.questions[i];
        if q.Open() {
          s.open := s.open + [q.id];
        } else {
          s.completed := s.completed + [q.id];
        }
      }
      assert s.questions[..|s.questions|] == s.questions;
    }

    /** One round of asking; it is made before and after the resolution step. */
    method Ask(s: Session, w: World)
      modifies s`questions, s`requests, s`required, s`missing
      ensures s.questions == Extend(playbook, w, old(s.questions))
      ensures s.requests == ChosenRequests(s.questions, w.present)
      ensures s.required == RequiredEvidence(s.questions, w.present)
      ensures s.missing == MissingEvidence(s.questions, w.present)
    {
      Ensure(s);
      Generate(s, w);
      SyncRequests(s, w);
    }

    method Run(s: Session, w: World) returns (resolved: seq<Resolution>)
      modifies s
      ensures s.Value() == RunPlan(playbook, w, old(s.Value()))
      ensures resolved == NewResolutions(Extend(playbook, w, old(s.questions)), w)
      ensures s.requests == ChosenRequests(s.questions, w.present)
      ensures s.required == RequiredEvidence(s.questions, w.present)
      ensures s.missing == MissingEvidence(s.questions, w.present)
      ensures s.open == IdsWhere(s.questions, (q: Question) => q.Open())
      ensures s.completed == IdsWhere(s.questions, (q: Question) => !q.Open())
    {
      Ask(s, w);
      resolved := ResolveQuestions(s, w);
      Ask(s, w);
      UpdateLists(s);
    }

    method ResolveQuestion(s: Session, id: string, confirmed: bool) returns (res: Option<Resolution>)
      modifies s
      ensures var r := ForcePlan(old(s.Value()), id, confirmed);
              if r.None? then res == None && s.Value() == old(s.Value())
              else s.Value() == r.value && res == Some(r.value.history[|r.value.history| - 1])
    {
      FindIndex(s.questions, id);
      for i := 0 to |s.questions|
        invariant s.Value() == old(s.Value())
        invariant forall j :: 0 <= j < i ==> s.questions[j].id != id
      {
        if s.questions[i].id != id {
          continue;
        }
        var q := s.questions[i];
        var r := Resolution(id, if confirmed then Confirmed else Refused, 91.0);
        var status := if confirmed then Answered else Rejected;
        s.questions := s.questions[i := q.(status := status, confidence := 91.0, resolution := Some(r))];
        s.history := s.history + [r];
        UpdateLists(s);
        return Some(r);
      }
      return None;
    }
  }
}
