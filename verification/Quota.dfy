/** The agent quota answer: what a strict producer may write and what a tolerant reader accepts. */
module Quota {
  import opened Options

  /** A timestamp as its schema sees it. */
  datatype Stamp = Stamp(isInstant: bool, endsInZ: bool)

  /** `extra` are keys a reader does not know. */
  datatype Window = Window(model: Option<string>, usedPercent: real, resetsAt: Stamp, windowMinutes: int,
      extra: set<string>)

  datatype Credits = Credits(hasCredits: bool, unlimited: bool, balance: string, extra: set<string>)

  /** Of a key that may be missing and may be null, the outer option is the key and the inner its value. */
  datatype Account = Account(
    runner: string, accountId: string, status: string, resetsAt: Option<Stamp>, loginKind: string, observedAt: Stamp,
    ageSeconds: int, source: string, shortWindow: Option<Window>, weeklyWindow: Option<Window>,
    modelWindows: Option<seq<Window>>, credits: Option<Credits>, planType: Option<string>, notReported: seq<string>,
    stale: Option<bool>, refreshing: Option<bool>, nextCheckAt: Option<Option<Stamp>>, toolVersion: Option<Option<string>>,
    minimumVersion: Option<string>, statusReason: Option<Option<string>>, warnings: Option<seq<string>>,
    unavailableReason: Option<Option<string>>, extra: set<string>)

  datatype Response = Response(
    schemaVersion: int, scope: string, generatedAt: Stamp, accounts: seq<Account>, extra: set<string>)

  const FACTS: seq<string> := ["shortWindow", "weeklyWindow", "modelWindows", "credits", "planType"]

  predicate IsNull(a: Account, fact: string) {
    (fact == "shortWindow" && a.shortWindow.None?) || (fact == "weeklyWindow" && a.weeklyWindow.None?)
    || (fact == "modelWindows" && a.modelWindows.None?) || (fact == "credits" && a.credits.None?)
    || (fact == "planType" && a.planType.None?)
  }

  // ---- the two refinements --------------------------------------------------------------------------

  /** Each of the five facts is null exactly when it is listed. */
  ghost predicate ListedExactly(a: Account) {
    forall f <- FACTS :: IsNull(a, f) <==> f in a.notReported
  }

  /** Field by field. */
  lemma ListedMeans(a: Account)
    ensures ListedExactly(a) <==>
      && (a.shortWindow.None? <==> "shortWindow" in a.notReported) && (a.weeklyWindow.None? <==> "weeklyWindow" in a.notReported)
      && (a.modelWindows.None? <==> "modelWindows" in a.notReported) && (a.credits.None? <==> "credits" in a.notReported)
      && (a.planType.None? <==> "planType" in a.notReported)
  {
    assert FACTS[0] in FACTS && FACTS[1] in FACTS && FACTS[2] in FACTS && FACTS[3] in FACTS && FACTS[4] in FACTS;
    assert forall f <- FACTS :: f == FACTS[0] || f == FACTS[1] || f == FACTS[2] || f == FACTS[3] || f == FACTS[4];
  }

  method RefineKnownNotReported(a: Account) returns (issues: seq<string>)
    ensures forall f :: f in issues <==> f in FACTS && (IsNull(a, f) <==> f !in a.notReported)
    ensures issues == [] <==> ListedExactly(a)
  {
    hide IsNull;
    issues := [];
    for i := 0 to |FACTS|
      invariant forall f :: f in issues <==> f in FACTS[..i] && (IsNull(a, f) <==> f !in a.notReported)
    {
      var field := FACTS[i];
      assert FACTS[..i + 1] == FACTS[..i] + [field];
      if IsNull(a, field) != (field in a.notReported) { issues := issues + [field]; }
    }
    assert FACTS[..|FACTS|] == FACTS;
    if issues != [] { assert issues[0] in issues; }
  }

  predicate Spent(w: Option<Window>) { w.Some? && w.value.usedPercent >= 100.0 }

  predicate AnySpent(a: Account) {
    Spent(a.shortWindow) || Spent(a.weeklyWindow)
    || (a.modelWindows.Some? && exists w :: w in a.modelWindows.value && w.usedPercent >= 100.0)
  }

  predicate OkThoughSpent(a: Account) { a.runner == "claude" && a.status == "ok" && AnySpent(a) }

  /** Every window an account reports. */
  function WindowsOf(a: Account): seq<Window> {
    (if a.shortWindow.Some? then [a.shortWindow.value] else []) + (if a.weeklyWindow.Some? then [a.weeklyWindow.value] else [])
    + if a.modelWindows.Some? then a.modelWindows.value else []
  }

  lemma SpentMeans(a: Account)
    ensures OkThoughSpent(a) <==>
      a.runner == "claude" && a.status == "ok" && exists w :: w in WindowsOf(a) && w.usedPercent >= 100.0
  {
    var ws := WindowsOf(a);
    if a.shortWindow.Some? { assert a.shortWindow.value in ws; }
    if a.weeklyWindow.Some? { assert a.weeklyWindow.value in ws; }
    if a.modelWindows.Some? { assert forall w <- a.modelWindows.value :: w in ws; }
  }

  method RefineOkWindows(r: Response) returns (issues: seq<nat>)
    ensures forall i: nat :: i in issues <==> i < |r.accounts| && OkThoughSpent(r.accounts[i])
    ensures issues == [] <==> forall a <- r.accounts :: !OkThoughSpent(a)
  {
    hide OkThoughSpent;
    issues := [];
    for i := 0 to |r.accounts|
      invariant forall j: nat :: j in issues <==> j < i && OkThoughSpent(r.accounts[j])
    {
      if OkThoughSpent(r.accounts[i]) { issues := issues + [i]; }
    }
    if issues != [] { assert issues[0] in issues; }
    forall a | a in r.accounts && issues == [] ensures !OkThoughSpent(a) {
      var i :| 0 <= i < |r.accounts| && r.accounts[i] == a;
    }
  }

  // ---- the two schemas ------------------------------------------------------------------------------

  predicate WindowReads(w: Window) {
    0.0 <= w.usedPercent <= 100.0 && w.resetsAt.isInstant && w.resetsAt.endsInZ && w.windowMinutes > 0
        && w.model != Some("")
  }

  predicate Distinct(names: seq<string>) { forall i, j :: 0 <= i < j < |names| ==> names[i] != names[j] }

  /** What both schemas ask of an account. */
  predicate CommonShape(a: Account) {
    && a.runner in {"claude", "codex"} && 1 <= |a.accountId| <= 64
    && (if a.status == "out" then a.resetsAt.Some? && a.resetsAt.value.isInstant && a.resetsAt.value.endsInZ
        else a.status in {"ok", "unknown"} && a.resetsAt.None?)
    && a.observedAt.isInstant && a.ageSeconds >= 0
    && (a.shortWindow.Some? ==> WindowReads(a.shortWindow.value) && a.shortWindow.value.model.None?)
    && (a.weeklyWindow.Some? ==> WindowReads(a.weeklyWindow.value) && a.weeklyWindow.value.model.None?)
    && (a.modelWindows.Some? ==> forall w <- a.modelWindows.value :: WindowReads(w) && w.model.Some?)
    && a.planType != Some("") && Distinct(a.notReported)
    && (a.nextCheckAt.Some? && a.nextCheckAt.value.Some? ==> a.nextCheckAt.value.value.isInstant)
    && a.toolVersion != Some(Some("")) && a.minimumVersion != Some("") && a.unavailableReason != Some(Some(""))
    && (a.warnings.Some? ==> "" !in a.warnings.value)
  }

  /** The reader takes any non-empty word. */
  predicate ShapeReads(a: Account) {
    CommonShape(a) && a.loginKind != "" && a.source != "" && a.statusReason != Some(Some(""))
    && forall n <- a.notReported :: n != ""
  }

  /** The producer may write the known keys, names and words only. */
  predicate ShapeWrites(a: Account) {
    && CommonShape(a)
    && a.loginKind in {"subscription", "api-key", "unknown"}
    && a.source in {"live", "failedRun", "check", "check-text", "none"}
    && (a.statusReason.Some? && a.statusReason.value.Some? ==>
          a.statusReason.value.value in {"check-failed", "format-changed", "version-too-old", "not-installed", "api-key"})
    && (forall n <- a.notReported :: n in FACTS)
    && a.extra == {} && (a.credits.Some? ==> a.credits.value.extra == {})
    && (a.shortWindow.Some? ==> a.shortWindow.value.extra == {})
    && (a.weeklyWindow.Some? ==> a.weeklyWindow.value.extra == {})
    && (a.modelWindows.Some? ==> forall w <- a.modelWindows.value :: w.extra == {})
  }

  ghost predicate AccountReads(a: Account) { ShapeReads(a) && ListedExactly(a) }

  predicate Envelope(r: Response) { r.schemaVersion == 1 && r.scope == "agent-quota" && r.generatedAt.isInstant }

  ghost predicate Reads(r: Response) {
    Envelope(r) && (forall a <- r.accounts :: AccountReads(a)) && forall a <- r.accounts :: !OkThoughSpent(a)
  }

  ghost predicate Writes(r: Response) {
    && Envelope(r) && r.extra == {} && (forall a <- r.accounts :: ShapeWrites(a) && ListedExactly(a))
    && forall a <- r.accounts :: !OkThoughSpent(a)
  }

  // ---- compatibility --------------------------------------------------------------------------------

  function PlainWindow(w: Option<Window>): Option<Window> {
    if w.Some? then Some(w.value.(extra := {})) else None
  }

  /** What a reader keeps of an account: everything but the keys it does not know. */
  function Plain(a: Account): Account {
    a.(extra := {}, shortWindow := PlainWindow(a.shortWindow), weeklyWindow := PlainWindow(a.weeklyWindow),
       modelWindows :=
         if a.modelWindows.None? then None
         else Some(seq(|a.modelWindows.value|, i requires 0 <= i < |a.modelWindows.value| => a.modelWindows.value[i].(extra := {}))),
       credits := if a.credits.None? then None else Some(a.credits.value.(extra := {})))
  }

  /** Nothing that a reader keeps is unknown to it, and all that is known is kept. */
  lemma PlainMeans(a: Account)
    ensures var b := Plain(a);
      && b.extra == {} && (b.credits.Some? ==> b.credits.value.extra == {})
      && (forall w <- WindowsOf(b) :: w.extra == {})
      && |WindowsOf(b)| == |WindowsOf(a)|
      && (forall i :: 0 <= i < |WindowsOf(a)| ==> WindowsOf(b)[i] == WindowsOf(a)[i].(extra := {}))
      && a == b.(extra := a.extra, shortWindow := a.shortWindow, weeklyWindow := a.weeklyWindow, modelWindows := a.modelWindows,
                 credits := a.credits)
  {}

  /** And of a whole answer. */
  function Kept(r: Response): Response {
    r.(accounts := seq(|r.accounts|, i requires 0 <= i < |r.accounts| => Plain(r.accounts[i])), extra := {})
  }

  /** A reader accepts every producer's answer and keeps all of it. */
  lemma NothingIsLost(r: Response)
    requires Writes(r)
    ensures Reads(r) && Kept(r) == r
  {
    hide ListedExactly, OkThoughSpent, ShapeReads, ShapeWrites, Plain;
    forall a | a in r.accounts ensures ShapeReads(a) && Plain(a) == a { WrittenIsRead(a); }
    assert forall i :: 0 <= i < |r.accounts| ==> r.accounts[i] in r.accounts;
    assert Kept(r).accounts == r.accounts;
  }

  lemma WrittenIsRead(a: Account)
    requires ShapeWrites(a)
    ensures ShapeReads(a) && Plain(a) == a
  {
    hide CommonShape;
    assert forall f <- FACTS :: f != "";
    if a.modelWindows.Some? {
      var ws := a.modelWindows.value;
      assert forall i :: 0 <= i < |ws| ==> ws[i] in ws;
      assert Plain(a).modelWindows.value == ws;
    }
  }

  /** A later producer's account: the same facts, more keys anywhere, and more names. */
  ghost predicate Extends(b: Account, a: Account) {
    && Plain(b) == Plain(a).(notReported := b.notReported) && a.notReported <= b.notReported
    && var names := b.notReported[|a.notReported|..];
    && (forall n <- names :: n != "" && n !in FACTS && n !in a.notReported) && Distinct(names)
  }

  /** And a later producer's answer, which may have keys of its own as well. */
  ghost predicate ExtendsAll(later: Response, r: Response) {
    && later == r.(accounts := later.accounts, extra := later.extra) && |later.accounts| == |r.accounts|
    && forall i :: 0 <= i < |r.accounts| ==> Extends(later.accounts[i], r.accounts[i])
  }

  /** More keys at every level and more distinct names never make a reader refuse an answer, and it keeps
      of it what it would have kept without them, the further names excepted. */
  lemma AdditionsAreTolerated(r: Response, later: Response)
    requires Reads(r) && ExtendsAll(later, r)
    ensures Reads(later)
    ensures |later.accounts| == |r.accounts|
    ensures Kept(later).(accounts := Kept(r).accounts) == Kept(r)
    ensures forall i :: 0 <= i < |r.accounts| ==>
      && Kept(later).accounts[i].(notReported := r.accounts[i].notReported) == Kept(r).accounts[i]
      && forall f <- FACTS :: IsNull(later.accounts[i], f) <==> IsNull(r.accounts[i], f)
  {
    hide OkThoughSpent, AccountReads, Extends, IsNull, Plain;
    forall i | 0 <= i < |r.accounts|
      ensures AccountReads(later.accounts[i]) && !OkThoughSpent(later.accounts[i])
      ensures Plain(later.accounts[i]).(notReported := r.accounts[i].notReported) == Plain(r.accounts[i])
      ensures forall f <- FACTS :: IsNull(later.accounts[i], f) <==> IsNull(r.accounts[i], f)
    {
      assert r.accounts[i] in r.accounts;
      AccountAdditionsAreTolerated(r.accounts[i], later.accounts[i]);
    }
    forall a | a in later.accounts ensures AccountReads(a) && !OkThoughSpent(a) {
      var i :| 0 <= i < |later.accounts| && later.accounts[i] == a;
    }
  }

  lemma AccountAdditionsAreTolerated(a: Account, b: Account)
    requires AccountReads(a) && Extends(b, a)
    ensures AccountReads(b) && (OkThoughSpent(b) <==> OkThoughSpent(a))
    ensures Plain(b).(notReported := a.notReported) == Plain(a)
    ensures forall f <- FACTS :: IsNull(b, f) <==> IsNull(a, f)
  {
    var names := b.notReported[|a.notReported|..];
    assert b.notReported == a.notReported + names;
    PlainMatters(a);
    PlainMatters(b);
    NamesStayDistinct(a.notReported, names);
    assert forall f <- FACTS :: f in b.notReported <==> f in a.notReported;
  }

  lemma NamesStayDistinct(a: seq<string>, names: seq<string>)
    requires Distinct(a) && Distinct(names) && forall n <- names :: n !in a
    ensures Distinct(a + names)
  {
    forall i, j | 0 <= i < j < |a + names| ensures (a + names)[i] != (a + names)[j] {
      if j >= |a| { assert (a + names)[j] in names; }
    }
  }

  /** Unknown keys play no part in any check. */
  lemma PlainMatters(a: Account)
    ensures ShapeReads(Plain(a)) <==> ShapeReads(a)
    ensures OkThoughSpent(Plain(a)) <==> OkThoughSpent(a)
    ensures forall f :: IsNull(Plain(a), f) <==> IsNull(a, f)
  {
    if a.modelWindows.Some? {
      var ws, ps := a.modelWindows.value, Plain(a).modelWindows.value;
      forall i | 0 <= i < |ws| ensures ws[i] in ws && ps[i] in ps && ps[i] == ws[i].(extra := {}) {}
      assert forall w <- ps :: exists i :: 0 <= i < |ws| && ps[i] == w;
      assert forall w <- ws :: exists i :: 0 <= i < |ws| && ws[i] == w;
    }
  }

  // ---- field by field -------------------------------------------------------------------------------

  /** An account that nothing is known of. */
  lemma LeastAccount(seen: Stamp)
    requires seen.isInstant
    ensures ShapeWrites(Account("codex", "1", "unknown", None, "unknown", seen, 0, "none", None, None, None, None, None, FACTS,
                                None, None, None, None, None, None, None, None, {}))
  {
    assert forall i, j :: 0 <= i < j < |FACTS| ==> FACTS[i] != FACTS[j];
  }

  predicate IsTime(t: Stamp) { t.isInstant && t.endsInZ }

  /** From an account a producer may write: which words it may write instead, and which a reader takes. */
  lemma WordByWord(a: Account, word: string, text: Option<string>)
    requires ShapeWrites(a)
    ensures ShapeWrites(a.(loginKind := word)) <==> word in {"subscription", "api-key", "unknown"}
    ensures ShapeReads(a.(loginKind := word)) <==> word != ""
    ensures ShapeWrites(a.(source := word)) <==> word in {"live", "failedRun", "check", "check-text", "none"}
    ensures ShapeReads(a.(source := word)) <==> word != ""
    ensures ShapeWrites(a.(statusReason := Some(text))) <==>
      text.None? || text.value in {"check-failed", "format-changed", "version-too-old", "not-installed", "api-key"}
    ensures ShapeReads(a.(statusReason := Some(text))) <==> text != Some("")
  {
    FactsAreNamed();
    hide WindowReads, Distinct, FACTS;
  }

  lemma FactsAreNamed()
    ensures forall f <- FACTS :: f != ""
  {}

  /** Whom it is about, and what stands in its way until when. */
  lemma WhoAndWhat(a: Account, word: string, now: Stamp)
    requires ShapeWrites(a)
    ensures ShapeReads(a.(runner := word)) <==> word == "claude" || word == "codex"
    ensures ShapeReads(a.(accountId := word)) <==> 1 <= |word| <= 64
    ensures ShapeReads(a.(status := word, resetsAt := None)) <==> word == "ok" || word == "unknown"
    ensures ShapeReads(a.(status := word, resetsAt := Some(now))) <==> word == "out" && IsTime(now)
  {
    FactsAreNamed();
    hide WindowReads, Distinct, FACTS;
  }

  lemma SeenWhen(a: Account, n: int, now: Stamp)
    requires ShapeWrites(a)
    ensures ShapeReads(a.(observedAt := now)) <==> now.isInstant
    ensures ShapeReads(a.(ageSeconds := n)) <==> n >= 0
    ensures ShapeReads(a.(nextCheckAt := Some(Some(now)))) <==> now.isInstant
  {
    FactsAreNamed();
    hide WindowReads, Distinct, FACTS;
  }

  /** The texts that may be missing but not empty. */
  lemma TextByText(a: Account, word: string, text: Option<string>)
    requires ShapeWrites(a)
    ensures ShapeReads(a.(planType := text)) <==> text != Some("")
    ensures ShapeReads(a.(toolVersion := Some(text))) <==> text != Some("")
    ensures ShapeReads(a.(minimumVersion := text)) <==> text != Some("")
    ensures ShapeReads(a.(unavailableReason := Some(text))) <==> text != Some("")
    ensures ShapeReads(a.(warnings := Some([word]))) <==> word != ""
  {
    FactsAreNamed();
    hide WindowReads, Distinct, FACTS;
  }

  predicate FitsAWindow(w: Window) { 0.0 <= w.usedPercent <= 100.0 && IsTime(w.resetsAt) && w.windowMinutes > 0 }

  /** One window. */
  lemma WindowByWindow(a: Account, w: Window)
    requires ShapeWrites(a)
    ensures ShapeReads(a.(shortWindow := Some(w.(model := None)))) <==> FitsAWindow(w)
    ensures ShapeReads(a.(weeklyWindow := Some(w.(model := None)))) <==> FitsAWindow(w)
    ensures ShapeReads(a.(modelWindows := Some([w]))) <==> FitsAWindow(w) && w.model.Some? && w.model != Some("")
  {
    FactsAreNamed();
    assert w in [w];
    hide Distinct, FACTS;
  }

  /** The envelope. */
  lemma AnswerByPart(r: Response, n: int, word: string, now: Stamp)
    requires Reads(r)
    ensures Reads(r.(schemaVersion := n)) <==> n == 1
    ensures Reads(r.(scope := word)) <==> word == "agent-quota"
    ensures Reads(r.(generatedAt := now)) <==> now.isInstant
  {
    hide AccountReads, OkThoughSpent;
  }

  /** The list of missing facts, and a key nobody knows. */
  lemma NameByName(a: Account, names: seq<string>, key: string)
    requires ShapeWrites(a)
    ensures ShapeReads(a.(notReported := names)) <==> "" !in names && forall i, j :: 0 <= i < j < |names| ==> names[i] != names[j]
    ensures ShapeWrites(a.(notReported := names)) <==>
      (forall n <- names :: n in FACTS) && forall i, j :: 0 <= i < j < |names| ==> names[i] != names[j]
    ensures !ShapeWrites(a.(extra := {key})) && ShapeReads(a.(extra := {key}))
  {
    FactsAreNamed();
    assert key in {key};
    hide WindowReads;
  }
}
