/** A codec that meets what the event stream asks of JSON: no raw newline in the text of an
    event, and an event comes back from its text. */
module Codecs {
  import opened Options
  import opened Events
  import opened SseWire

  /** Two characters for each, none of them a newline, and two that close the text. */
  function Spell(s: string): string {
    if s == "" then "zz"
    else (if s[0] == '\n' then "yn" else "x" + [s[0]]) + Spell(s[1..])
  }

  function Tag(kind: EventType): char {
    match kind
    case WorkflowStarted => 'a' case WorkflowStage => 'b'
    case RetrievalStarted => 'c' case RetrievalCompleted => 'd'
    case FinancialDataStarted => 'e' case FinancialDataCompleted => 'f'
    case CalculationStarted => 'g' case CalculationCompleted => 'h'
    case AgentStarted => 'i' case AgentCompleted => 'j'
    case VerificationStarted => 'k' case VerificationCompleted => 'l'
    case AnswerDelta => 'm' case AnswerCompleted => 'n'
    case TaskCompleted => 'o' case TaskFailed => 'p' case TaskAborted => 'q'
    case ErrorEvent => 'r'
    case Unfrozen(_) => 's'
  }

  function SpellKind(kind: EventType): string {
    [Tag(kind)] + if kind.Unfrozen? then Spell(kind.name) else ""
  }

  function SpellCode(code: Code): string {
    match code
    case WorkflowCancelled => "a"
    case InternalError => "b"
    case OtherCode(name) => "c" + Spell(name)
  }

  function SpellData(data: Data): string {
    match data
    case NoData => "a"
    case OfTask(taskId, kind) => "b" + (Spell(taskId) + Spell(kind))
    case Failure(taskId, code) => "c" + (Spell(taskId) + SpellCode(code))
    case Problem(code, retryable) => (if retryable then "d" else "e") + SpellCode(code)
    case Payload(text) => "f" + Spell(text)
    case Result(calculationId) => "g" + Spell(calculationId)
  }

  function SpellEvent(e: Event): string {
    Spell(e.id) + (Spell(e.traceId) + (SpellKind(e.kind) + SpellData(e.data)))
  }

  lemma {:induction false} SpellHasNoNewline(s: string)
    ensures '\n' !in Spell(s)
  {
    if s != "" { SpellHasNoNewline(s[1..]); }
  }

  lemma EventHasNoNewline(e: Event)
    ensures '\n' !in SpellEvent(e)
  {
    SpellHasNoNewline(e.id);
    SpellHasNoNewline(e.traceId);
    if e.kind.Unfrozen? { SpellHasNoNewline(e.kind.name); }
    match e.data
    case NoData =>
    case OfTask(taskId, kind) => SpellHasNoNewline(taskId); SpellHasNoNewline(kind);
    case Failure(taskId, code) => SpellHasNoNewline(taskId); CodeHasNoNewline(code);
    case Problem(code, retryable) => CodeHasNoNewline(code);
    case Payload(text) => SpellHasNoNewline(text);
    case Result(calculationId) => SpellHasNoNewline(calculationId);
  }

  lemma CodeHasNoNewline(code: Code)
    ensures '\n' !in SpellCode(code)
  {
    if code.OtherCode? { SpellHasNoNewline(code.name); }
  }

  /** Where one spelling ends is plain from the text. */
  lemma {:induction false} SpellingsPart(s: string, x: string, t: string, y: string)
    requires Spell(s) + x == Spell(t) + y
    ensures s == t && x == y
  {
    var a, b := Spell(s) + x, Spell(t) + y;
    assert a[0] == b[0] && a[1] == b[1];
    if s == "" || t == "" {
      assert a[2..] == x && b[2..] == y;
    } else {
      assert a[2..] == Spell(s[1..]) + x && b[2..] == Spell(t[1..]) + y;
      SpellingsPart(s[1..], x, t[1..], y);
      assert s == [s[0]] + s[1..] && t == [t[0]] + t[1..];
    }
  }

  lemma SpellingsDiffer(s: string, t: string)
    requires Spell(s) == Spell(t)
    ensures s == t
  {
    assert Spell(s) + "" == Spell(s) && Spell(t) + "" == Spell(t);
    SpellingsPart(s, "", t, "");
  }

  lemma CodesDiffer(a: Code, b: Code)
    requires SpellCode(a) == SpellCode(b)
    ensures a == b
  {
    assert SpellCode(a)[0] == SpellCode(b)[0];
    if a.OtherCode? {
      assert SpellCode(a)[1..] == Spell(a.name) && SpellCode(b)[1..] == Spell(b.name);
      SpellingsDiffer(a.name, b.name);
    }
  }

  lemma TagsDiffer(a: EventType, b: EventType)
    requires Tag(a) == Tag(b)
    ensures a.Unfrozen? <==> b.Unfrozen?
    ensures !a.Unfrozen? ==> a == b
  {}

  lemma SplitKind(kind: EventType, x: string)
    ensures var s := SpellKind(kind) + x;
            && s[0] == Tag(kind)
            && s[1..] == if kind.Unfrozen? then Spell(kind.name) + x else x
  {}

  lemma KindsPart(a: EventType, x: string, b: EventType, y: string)
    requires SpellKind(a) + x == SpellKind(b) + y
    ensures a == b && x == y
  {
    SplitKind(a, x);
    SplitKind(b, y);
    TagsDiffer(a, b);
    if a.Unfrozen? { SpellingsPart(a.name, x, b.name, y); }
  }

  lemma DataDiffer(a: Data, b: Data)
    requires SpellData(a) == SpellData(b)
    ensures a == b
  {
    assert SpellData(a)[0] == SpellData(b)[0];
    assert SpellData(a)[1..] == SpellData(b)[1..];
    match a
    case NoData =>
    case OfTask(taskId, kind) =>
      SpellingsPart(taskId, Spell(kind), b.taskId, Spell(b.kind));
      SpellingsDiffer(kind, b.kind);
    case Failure(taskId, code) =>
      SpellingsPart(taskId, SpellCode(code), b.taskId, SpellCode(b.code));
      CodesDiffer(code, b.code);
    case Problem(code, retryable) => CodesDiffer(code, b.code);
    case Payload(text) => SpellingsDiffer(text, b.text);
    case Result(calculationId) => SpellingsDiffer(calculationId, b.calculationId);
  }

  lemma EventsDiffer(e: Event, f: Event)
    requires SpellEvent(e) == SpellEvent(f)
    ensures e == f
  {
    SpellingsPart(e.id, Spell(e.traceId) + (SpellKind(e.kind) + SpellData(e.data)),
                  f.id, Spell(f.traceId) + (SpellKind(f.kind) + SpellData(f.data)));
    SpellingsPart(e.traceId, SpellKind(e.kind) + SpellData(e.data), f.traceId, SpellKind(f.kind) + SpellData(f.data));
    KindsPart(e.kind, SpellData(e.data), f.kind, SpellData(f.data));
    DataDiffer(e.data, f.data);
  }

  /** The event whose text this is, after a blank. */
  ghost function Unspell(s: string): Option<Event> {
    if e: Event :| " " + SpellEvent(e) == s then Some(e) else None
  }

  ghost function Spelling(): Codec { Codec(SpellEvent, s => Unspell(s), c => c == ' ') }

  /** What the stream asks of its codec can be met. */
  lemma SpellingIsFaithful()
    ensures Faithful(Spelling())
  {
    forall e: Event ensures '\n' !in SpellEvent(e) { EventHasNoNewline(e); }
    forall e: Event ensures Unspell(" " + SpellEvent(e)) == Some(e) {
      var f := Unspell(" " + SpellEvent(e));
      assert f.Some?;
      assert (" " + SpellEvent(f.value))[1..] == SpellEvent(f.value);
      assert (" " + SpellEvent(e))[1..] == SpellEvent(e);
      EventsDiffer(f.value, e);
    }
  }
}
