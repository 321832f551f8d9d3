/** The significant-event catalog: which kind belongs to which category, and what a row of it may say. */
module Catalog {
  import opened Options
  import opened Text
  import opened JournalRows
  import Json

  const KINDS: seq<(string, string)> := [
    ("task.done", "E-01"), ("task.failed", "E-01"), ("task.cancelled", "E-01"), ("task.blocked", "E-01"),
    ("task.stalled", "E-01"), ("task.resumed", "E-01"), ("question.asked", "E-02"), ("question.answered", "E-02"),
    ("gate.passed", "E-03"), ("gate.failed", "E-03"), ("result.ready", "E-03"), ("verdict.posted", "E-03"),
    ("goal.changed", "E-04"), ("instruction.added", "E-04"), ("instruction.queued", "E-04"),
    ("instruction.edited", "E-04"), ("instruction.removed", "E-04"), ("config.changed", "E-05"),
    ("workflow.saved", "E-05"), ("workflow.deleted", "E-05"), ("agent-config.changed", "E-05"),
    ("executor.available", "E-06"), ("executor.unavailable", "E-06")]

  const SUBJECTS: seq<string> := ["run", "config", "workflow", "agent-config", "executor"]

  /** A word as code units. */
  function Words(s: string): seq<Unit> { Units(Json.Name(s)) }

  lemma WordsSpell(text: seq<Unit>, word: string)
    requires forall c <- word :: c as int < 0x1_0000
    ensures Spells(text, word) <==> text == Words(word)
  {
    forall p | p in Json.Name(word) ensures p < 0x1_0000 {
      var i :| 0 <= i < |word| && p == word[i] as int;
      assert word[i] in word;
    }
    UnitsOfPlain(Json.Name(word));
  }

  function CategoryIn(table: seq<(string, string)>, kind: seq<Unit>): Option<seq<Unit>> {
    if table == [] then None
    else if Words(table[0].0) == kind then Some(Words(table[0].1))
    else CategoryIn(table[1..], kind)
  }

  /** The category a kind belongs to, if it is a catalog kind. */
  function CategoryOf(kind: seq<Unit>): Option<seq<Unit>> { CategoryIn(KINDS, kind) }

  predicate IsSubject(kind: seq<Unit>) { exists s :: s in SUBJECTS && Words(s) == kind }

  predicate IsGate(kind: seq<Unit>) { kind == Words("gate.passed") || kind == Words("gate.failed") }

  /** A catalog kind under its own category, about a catalog subject; a human change names a human; gate
      metadata stands only on a gate row about a run. */
  predicate IsCatalogEvent(e: Event) {
    && CategoryOf(e.kind) == Some(e.category) && IsSubject(e.subject.kind)
    && (e.category == Words("E-04") ==> e.origin.Human?)
    && (e.gate.Some? ==> IsGate(e.kind) && e.category == Words("E-03") && e.subject.kind == Words("run"))
  }

  /** `kind` is in the table, and `category` is what its first entry says. */
  ghost predicate Listed(table: seq<(string, string)>, kind: seq<Unit>, category: seq<Unit>) {
    exists i :: 0 <= i < |table| && Spells(kind, table[i].0) && Spells(category, table[i].1)
                && forall j :: 0 <= j < i ==> !Spells(kind, table[j].0)
  }

  ghost predicate PlainWords(table: seq<(string, string)>) {
    forall i :: 0 <= i < |table| ==> IsPlain(table[i].0) && IsPlain(table[i].1)
  }

  ghost predicate IsPlain(word: string) { forall c <- word :: c as int < 0x1_0000 }

  lemma {:induction false} CategoryMeans(table: seq<(string, string)>, kind: seq<Unit>, category: seq<Unit>)
    requires PlainWords(table)
    ensures CategoryIn(table, kind) == Some(category) <==> Listed(table, kind, category)
    decreases |table|
  {
    hide Spells, Words, IsPlain;
    if table != [] {
      var rest := table[1..];
      CategoryMeans(rest, kind, category);
      assert IsPlain(table[0].0) && IsPlain(table[0].1);
      WordsSpell(kind, table[0].0) by { assert IsPlain(table[0].0); IsPlainMeans(table[0].0); }
      WordsSpell(category, table[0].1) by { IsPlainMeans(table[0].1); }
      if Listed(rest, kind, category) && !Spells(kind, table[0].0) {
        var i :| 0 <= i < |rest| && Spells(kind, rest[i].0) && Spells(category, rest[i].1)
               && forall j :: 0 <= j < i ==> !Spells(kind, rest[j].0);
        assert table[i + 1] == rest[i] && forall j :: 0 <= j < i + 1 ==> !Spells(kind, table[j].0);
      }
      if Listed(table, kind, category) && !Spells(kind, table[0].0) {
        var i :| 0 <= i < |table| && Spells(kind, table[i].0) && Spells(category, table[i].1)
               && forall j :: 0 <= j < i ==> !Spells(kind, table[j].0);
        assert rest[i - 1] == table[i] && forall j :: 0 <= j < i - 1 ==> rest[j] == table[j + 1];
      }
    }
  }

  /** The five subjects, and the two kinds of a gate row. */
  lemma SubjectsAndGates(kind: seq<Unit>)
    ensures IsSubject(kind) <==>
      Spells(kind, "run") || Spells(kind, "config") || Spells(kind, "workflow")
      || Spells(kind, "agent-config") || Spells(kind, "executor")
    ensures IsGate(kind) <==> Spells(kind, "gate.passed") || Spells(kind, "gate.failed")
  {
    hide Spells, Words;
    WordsSpell(kind, "run");
    WordsSpell(kind, "config");
    WordsSpell(kind, "workflow");
    WordsSpell(kind, "agent-config");
    WordsSpell(kind, "executor");
    WordsSpell(kind, "gate.passed");
    WordsSpell(kind, "gate.failed");
    assert SUBJECTS == ["run", "config", "workflow", "agent-config", "executor"];
    assert SUBJECTS[0] in SUBJECTS && SUBJECTS[1] in SUBJECTS && SUBJECTS[2] in SUBJECTS;
    assert SUBJECTS[3] in SUBJECTS && SUBJECTS[4] in SUBJECTS;
  }

  lemma IsPlainMeans(word: string)
    requires IsPlain(word)
    ensures forall c <- word :: c as int < 0x1_0000
  {}

  datatype Issue = UnknownKind | WrongCategory | UnknownSubject | NotHuman | GateOnOtherKind | GateOnOtherSubject

  method CheckCatalogEvent(e: Event) returns (issues: seq<Issue>)
    ensures issues == [] <==> IsCatalogEvent(e)
    ensures UnknownKind in issues ==> issues == [UnknownKind]
  {
    hide CategoryOf, IsSubject, Words;
    issues := [];
    var category := CategoryOf(e.kind);
    if category.None? { return [UnknownKind]; }
    if category.value != e.category { issues := issues + [WrongCategory]; }
    if !IsSubject(e.subject.kind) { issues := issues + [UnknownSubject]; }
    if e.category == Words("E-04") && !e.origin.Human? { issues := issues + [NotHuman]; }
    if e.gate.Some? && (e.category != Words("E-03") || !IsGate(e.kind)) { issues := issues + [GateOnOtherKind]; }
    if e.gate.Some? && e.subject.kind != Words("run") { issues := issues + [GateOnOtherSubject]; }
  }
}
