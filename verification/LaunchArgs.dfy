/** The browser launch flags every call of a session carries. */
module LaunchArgs {
  import opened Options

  const BASE := "--force-prefers-no-reduced-motion"

  // ---- flag lists -----------------------------------------------------------------------------------

  /** JavaScript white space. */
  predicate IsSpace(c: char) {
    var u := c as int;
    (9 <= u <= 13) || u in {32, 160, 0x1680, 0x2028, 0x2029, 0x202f, 0x205f, 0x3000, 0xfeff} || 0x2000 <= u <= 0x200a
  }

  function TrimStart(s: string): string { if s != "" && IsSpace(s[0]) then TrimStart(s[1..]) else s }

  function TrimEnd(s: string): string { if s != "" && IsSpace(s[|s| - 1]) then TrimEnd(s[..|s| - 1]) else s }

  function Trim(s: string): string { TrimEnd(TrimStart(s)) }

  /** Tab, line feed, vertical tab, form feed, carriage return, and what Unicode counts as space. */
  lemma SpacesAre(c: char)
    ensures IsSpace(c) <==> c as int in {
      9, 10, 11, 12, 13, 32, 160, 5760, 8192, 8193, 8194, 8195, 8196, 8197, 8198, 8199, 8200, 8201, 8202, 8232, 8233, 8239,
      8287, 12288, 65279}
  {}

  ghost predicate AllSpace(s: string) { forall c <- s :: IsSpace(c) }

  /** Trimming takes the space off both ends and nothing else. */
  lemma TrimMeans(s: string) returns (front: string, back: string)
    ensures s == front + Trim(s) + back && AllSpace(front) && AllSpace(back)
    ensures Trim(s) != "" ==> !IsSpace(Trim(s)[0]) && !IsSpace(Trim(s)[|Trim(s)| - 1])
  {
    hide IsSpace;
    front := StartMeans(s);
    back := EndMeans(TrimStart(s));
    assert s == front + (Trim(s) + back);
  }

  lemma {:induction false} StartMeans(s: string) returns (front: string)
    ensures s == front + TrimStart(s) && AllSpace(front) && (TrimStart(s) != "" ==> !IsSpace(TrimStart(s)[0]))
  {
    hide IsSpace;
    front := "";
    if s != "" && IsSpace(s[0]) {
      var more := StartMeans(s[1..]);
      front := [s[0]] + more;
    }
  }

  lemma {:induction false} EndMeans(s: string) returns (back: string)
    ensures s == TrimEnd(s) + back && AllSpace(back) && (TrimEnd(s) != "" ==> !IsSpace(TrimEnd(s)[|TrimEnd(s)| - 1]))
    ensures TrimEnd(s) != "" ==> TrimEnd(s)[0] == s[0]
  {
    hide IsSpace;
    back := "";
    if s != "" && IsSpace(s[|s| - 1]) {
      var more := EndMeans(s[..|s| - 1]);
      back := more + [s[|s| - 1]];
    }
  }

  function Split(s: string): (parts: seq<string>)
    ensures |parts| >= 1
  {
    if s == "" then [""]
    else if s[0] == ',' then [""] + Split(s[1..])
    else
      var rest := Split(s[1..]);
      [[s[0]] + rest[0]] + rest[1..]
  }

  /** Trimmed, and the empty ones dropped. */
  function Cleaned(parts: seq<string>): seq<string> {
    if parts == [] then [] else (if Trim(parts[0]) == "" then [] else [Trim(parts[0])]) + Cleaned(parts[1..])
  }

  function FlagsOf(value: string): seq<string> { Cleaned(Split(value)) }

  /** Each flag at its first place. */
  function Distinct(flags: seq<string>): seq<string> {
    if flags == [] then []
    else
      var before := Distinct(flags[..|flags| - 1]);
      var last := flags[|flags| - 1];
      if last in before then before else before + [last]
  }

  function Joined(flags: seq<string>): string {
    if flags == [] then "" else if |flags| == 1 then flags[0] else flags[0] + "," + Joined(flags[1..])
  }

  function EnvFlags(env: Option<string>): seq<string> { if env.Some? then FlagsOf(env.value) else [] }

  /** Environment, caller and base, in that order. */
  function Merged(env: Option<string>, caller: Option<string>): seq<string> {
    Distinct(EnvFlags(env) + (if caller.Some? then FlagsOf(caller.value) else []) + FlagsOf(BASE))
  }

  // ---- what merging means ---------------------------------------------------------------------------

  lemma {:induction false} DistinctMeans(flags: seq<string>)
    ensures var d := Distinct(flags);
      && (forall f :: f in d <==> f in flags)
      && (forall i, j :: 0 <= i < j < |d| ==> d[i] != d[j])
      && (forall i, j :: 0 <= i < j < |d| ==> First(flags, d[i]) < First(flags, d[j]))
    decreases |flags|
  {
    if flags != [] {
      var front := flags[..|flags| - 1];
      DistinctMeans(front);
      assert flags == front + [flags[|flags| - 1]];
      forall f | f in front ensures First(flags, f) == First(front, f) && First(front, f) < |front| {
        FirstInFront(front, flags[|flags| - 1], f);
      }
      var d := Distinct(flags);
      forall i, j | 0 <= i < j < |d| ensures d[i] != d[j] && First(flags, d[i]) < First(flags, d[j]) {
        assert d[i] in front;
        if d[j] !in front { NewIsLast(front, d[j]); }
      }
    }
  }

  /** Where a flag first stands, or the length when it does not occur. */
  function First(flags: seq<string>, f: string): nat {
    if flags == [] then 0 else if flags[0] == f then 0 else 1 + First(flags[1..], f)
  }

  lemma {:induction false} FirstInFront(front: seq<string>, last: string, f: string)
    requires f in front
    ensures First(front + [last], f) == First(front, f) < |front|
    decreases |front|
  {
    if front[0] != f {
      assert (front + [last])[1..] == front[1..] + [last];
      FirstInFront(front[1..], last, f);
    }
  }

  lemma {:induction false} NewIsLast(front: seq<string>, f: string)
    requires f !in front
    ensures First(front + [f], f) == |front|
    decreases |front|
  {
    if front != [] {
      assert (front + [f])[1..] == front[1..] + [f];
      NewIsLast(front[1..], f);
    }
  }

  /** Merging is duplicate-free, keeps first-seen order, and holds every environment, caller and base
      flag and nothing else. */
  lemma MergingMeans(env: Option<string>, caller: Option<string>)
    ensures var all := (if env.Some? then FlagsOf(env.value) else [])
          + (if caller.Some? then FlagsOf(caller.value) else []) + FlagsOf(BASE);
      var m := Merged(env, caller);
      && (forall f :: f in m <==> f in all)
      && (forall i, j :: 0 <= i < j < |m| ==> m[i] != m[j] && First(all, m[i]) < First(all, m[j]))
  {
    DistinctMeans(EnvFlags(env) + (if caller.Some? then FlagsOf(caller.value) else []) + FlagsOf(BASE));
  }

  // ---- reading a merged value back ------------------------------------------------------------------

  predicate Clean(f: string) { f != "" && ',' !in f && Trim(f) == f }

  lemma {:induction false} TrimStartIsClean(s: string)
    ensures (',' !in s ==> ',' !in TrimStart(s)) && TrimStart(TrimStart(s)) == TrimStart(s)
    ensures TrimStart(s) == "" || !IsSpace(TrimStart(s)[0])
    decreases |s|
  {
    if s != "" && IsSpace(s[0]) { TrimStartIsClean(s[1..]); }
  }

  lemma {:induction false} TrimEndIsClean(s: string)
    ensures (',' !in s ==> ',' !in TrimEnd(s)) && TrimEnd(TrimEnd(s)) == TrimEnd(s)
    ensures TrimEnd(s) <= s
    decreases |s|
  {
    if s != "" && IsSpace(s[|s| - 1]) { TrimEndIsClean(s[..|s| - 1]); }
  }

  lemma TrimIsClean(s: string)
    ensures ',' !in s ==> ',' !in Trim(s)
    ensures Trim(Trim(s)) == Trim(s)
  {
    TrimStartIsClean(s);
    TrimEndIsClean(TrimStart(s));
    assert Trim(s) == "" || Trim(s)[0] == TrimStart(s)[0];
  }

  lemma {:induction false} PartsHaveNoComma(s: string)
    ensures forall p <- Split(s) :: ',' !in p
    decreases |s|
  {
    if s != "" { PartsHaveNoComma(s[1..]); }
  }

  lemma {:induction false} CleanedAreClean(parts: seq<string>)
    requires forall p <- parts :: ',' !in p
    ensures forall f <- Cleaned(parts) :: Clean(f)
    decreases |parts|
  {
    hide Trim;
    if parts != [] {
      assert parts[0] in parts && forall p <- parts[1..] :: p in parts;
      TrimIsClean(parts[0]);
      CleanedAreClean(parts[1..]);
    }
  }

  lemma FlagsAreClean(value: string)
    ensures forall f <- FlagsOf(value) :: Clean(f)
  {
    PartsHaveNoComma(value);
    CleanedAreClean(Split(value));
  }

  lemma {:induction false} SplitAtComma(a: string, rest: string)
    requires ',' !in a
    ensures Split(a + "," + rest) == [a] + Split(rest) && Split(a) == [a]
    decreases |a|
  {
    if a == "" {
      assert "" + "," + rest == "," + rest && ("," + rest)[1..] == rest;
    } else {
      assert (a + "," + rest)[1..] == a[1..] + "," + rest;
      SplitAtComma(a[1..], rest);
      assert [a[0]] + a[1..] == a;
    }
  }

  /** A joined list of clean flags reads back as that list. */
  lemma {:induction false} JoinedReadsBack(flags: seq<string>)
    requires forall f <- flags :: Clean(f)
    ensures FlagsOf(Joined(flags)) == flags
    decreases |flags|
  {
    hide Trim;
    if flags == [] {
      TrimOfNothing();
      assert [""][1..] == [];
    } else {
      var f := flags[0];
      assert Clean(f) && forall g <- flags[1..] :: g in flags;
      assert flags == [f] + flags[1..];
      if |flags| == 1 {
        OneFlag(f);
        assert flags == [f];
      } else {
        JoinedReadsBack(flags[1..]);
        SplitAtComma(f, Joined(flags[1..]));
        assert ([f] + Split(Joined(flags[1..])))[1..] == Split(Joined(flags[1..]));
      }
    }
  }

  lemma TrimOfNothing()
    ensures Trim("") == ""
  {}

  lemma MergedIsClean(env: Option<string>, caller: Option<string>)
    ensures forall f <- Merged(env, caller) :: Clean(f)
  {
    MergingMeans(env, caller);
    if env.Some? { FlagsAreClean(env.value); }
    if caller.Some? { FlagsAreClean(caller.value); }
    FlagsAreClean(BASE);
  }

  lemma {:induction false} NothingNew(x: seq<string>, y: seq<string>)
    requires forall f <- y :: f in x
    ensures Distinct(x + y) == Distinct(x)
    decreases |y|
  {
    if y == [] {
      assert x + y == x;
    } else {
      var front := y[..|y| - 1];
      assert y[|y| - 1] in y && forall f <- front :: f in y;
      NothingNew(x, front);
      assert (x + y)[..|x + y| - 1] == x + front;
      DistinctMeans(x);
    }
  }

  lemma {:induction false} AlreadyFirst(x: seq<string>, y: seq<string>)
    ensures Distinct(x + Distinct(x + y)) == Distinct(x + y)
    decreases |y|
  {
    if y == [] {
      assert x + y == x;
      DistinctMeans(x);
      NothingNew(x, Distinct(x));
    } else {
      var front, e := y[..|y| - 1], y[|y| - 1];
      assert (x + y)[..|x + y| - 1] == x + front;
      AlreadyFirst(x, front);
      var d := Distinct(x + front);
      if e !in d {
        assert (x + (d + [e]))[..|x + (d + [e])| - 1] == x + d;
      }
    }
  }

  /** Merging a merged value again, under the same environment, changes nothing. */
  lemma MergingTwice(env: Option<string>, caller: Option<string>)
    ensures Merged(env, Some(Joined(Merged(env, caller)))) == Merged(env, caller)
  {
    hide EnvFlags, FlagsOf, Distinct, Joined, First;
    var v := if caller.Some? then FlagsOf(caller.value) else [];
    var m := Merged(env, caller);
    MergedIsClean(env, caller);
    JoinedReadsBack(m);
    MergeAgain(EnvFlags(env), v, FlagsOf(BASE));
  }

  lemma MergeAgain(e: seq<string>, v: seq<string>, b: seq<string>)
    ensures Distinct(e + Distinct(e + v + b) + b) == Distinct(e + v + b)
  {
    hide Distinct;
    var m := Distinct(e + v + b);
    DistinctMeans(e + v + b);
    assert forall f <- b :: f in e + v + b;
    NothingNew(e + m, b);
    AlreadyFirst(e, v + b);
    assert e + (v + b) == e + v + b;
  }

  // ---- calls ----------------------------------------------------------------------------------------

  function IndexOf(args: seq<string>, s: string): (i: nat)
    ensures i <= |args| && (i < |args| ==> args[i] == s) && forall j :: 0 <= j < i ==> args[j] != s
  {
    if args == [] then 0 else if args[0] == s then 0 else 1 + IndexOf(args[1..], s)
  }

  function SessionOf(args: seq<string>): Option<string> {
    var at := IndexOf(args, "--session");
    if at + 1 < |args| then Some(args[at + 1]) else None
  }

  /** The place of the caller's own launch flags, when it names any. */
  function OwnFlagsAt(args: seq<string>): Option<nat> {
    var at := IndexOf(args, "--args");
    if at + 1 < |args| then Some(at + 1) else None
  }

  function Launched(sessions: map<string, string>, args: seq<string>, env: Option<string>): seq<string> {
    var at := OwnFlagsAt(args);
    if at.Some? then args[at.value := Joined(Merged(env, Some(args[at.value])))]
    else
      var session := SessionOf(args);
      args + ["--args", if session.Some? && session.value in sessions then sessions[session.value]
          else Joined(Merged(env, None))]
  }

  function Remembered(sessions: map<string, string>, args: seq<string>, env: Option<string>): map<string, string> {
    var at := OwnFlagsAt(args);
    if at.Some? && SessionOf(args).Some? then
      sessions[SessionOf(args).value := Joined(Merged(env, Some(args[at.value])))]
    else sessions
  }

  class Cli {
    var sessionLaunchArgs: map<string, string>

    method WithLaunchArgs(args: seq<string>, env: Option<string>) returns (out: seq<string>)
      modifies this
      ensures out == Launched(old(sessionLaunchArgs), args, env)
      ensures sessionLaunchArgs == Remembered(old(sessionLaunchArgs), args, env)
    {
      hide Merged, Joined;
      out := args;
      var sessionAt := IndexOf(out, "--session");
      var session := if sessionAt + 1 < |out| then Some(out[sessionAt + 1]) else None;
      var argsAt := IndexOf(out, "--args");
      if argsAt + 1 < |out| {
        var merged := Joined(Merged(env, Some(out[argsAt + 1])));
        out := out[argsAt + 1 := merged];
        if session.Some? { sessionLaunchArgs := sessionLaunchArgs[session.value := merged]; }
        return;
      }
      var remembered := if session.Some? && session.value in sessionLaunchArgs then Some(sessionLaunchArgs[session.value]) else None;
      out := out + ["--args", if remembered.Some? then remembered.value else Joined(Merged(env, None))];
    }
  }

  // ---- sessions -------------------------------------------------------------------------------------

  datatype Call = Call(args: seq<string>, env: Option<string>)

  /** `value` follows the first `option` among the arguments. */
  ghost predicate Gives(args: seq<string>, option: string, value: string) {
    exists i :: 0 <= i && i + 1 < |args| && args[i] == option && args[i + 1] == value && option !in args[..i]
  }

  lemma {:induction false} FirstAt(args: seq<string>, s: string, i: nat)
    requires i < |args| && args[i] == s && s !in args[..i]
    ensures IndexOf(args, s) == i
    decreases i
  {
    if i > 0 {
      assert args[0] in args[..i] && args[1..][..i - 1] == args[..i][1..];
      assert forall x <- args[..i][1..] :: x in args[..i];
      FirstAt(args[1..], s, i - 1);
    }
  }

  lemma IndexGives(args: seq<string>, option: string, value: string)
    ensures var at := IndexOf(args, option); at + 1 < |args| && args[at + 1] == value <==> Gives(args, option, value)
  {
    hide IndexOf;
    var at := IndexOf(args, option);
    if at + 1 < |args| && args[at + 1] == value { assert option !in args[..at]; }
    if Gives(args, option, value) {
      var i :| 0 <= i && i + 1 < |args| && args[i] == option && args[i + 1] == value && option !in args[..i];
      FirstAt(args, option, i);
    }
  }

  lemma GivesIff(args: seq<string>, value: string)
    ensures SessionOf(args) == Some(value) <==> Gives(args, "--session", value)
    ensures OwnFlagsAt(args).Some? && args[OwnFlagsAt(args).value] == value <==> Gives(args, "--args", value)
  {
    hide IndexOf, Gives;
    IndexGives(args, "--session", value);
    IndexGives(args, "--args", value);
  }

  function After(sessions: map<string, string>, calls: seq<Call>): map<string, string>
    decreases |calls|
  {
    if calls == [] then sessions else After(Remembered(sessions, calls[0].args, calls[0].env), calls[1..])
  }

  /** A call of the session that brings flags of its own. */
  ghost predicate NamesFlags(c: Call, session: string) {
    Gives(c.args, "--session", session) && exists flags :: Gives(c.args, "--args", flags)
  }

  lemma NamesFlagsIff(c: Call, session: string)
    ensures NamesFlags(c, session) <==> SessionOf(c.args) == Some(session) && OwnFlagsAt(c.args).Some?
  {
    hide SessionOf, Gives;
    GivesIff(c.args, session);
    if OwnFlagsAt(c.args).Some? { GivesIff(c.args, c.args[OwnFlagsAt(c.args).value]); }
    if flags :| Gives(c.args, "--args", flags) { GivesIff(c.args, flags); }
  }

  /** Once a session's call names flags, every later call of that session without flags of its own
      carries that same merged string, whatever other sessions do in between and whatever the
      environment has become. */
  lemma {:induction false} SessionKeepsItsFlags(sessions: map<string, string>, named: Call, flags: string,
      between: seq<Call>, later: Call, session: string)
    requires Gives(named.args, "--session", session) && Gives(named.args, "--args", flags)
    requires forall c <- between :: !NamesFlags(c, session)
    requires Gives(later.args, "--session", session) && forall own :: !Gives(later.args, "--args", own)
    ensures var kept := After(Remembered(sessions, named.args, named.env), between);
      Launched(kept, later.args, later.env) == later.args + ["--args", Joined(Merged(named.env, Some(flags)))]
    decreases |between|
  {
    hide Merged, Joined, SessionOf, Gives, After;
    GivesIff(named.args, session);
    GivesIff(named.args, flags);
    GivesIff(later.args, session);
    if OwnFlagsAt(later.args).Some? { GivesIff(later.args, later.args[OwnFlagsAt(later.args).value]); }
    StillRemembered(Remembered(sessions, named.args, named.env), between, session);
  }

  lemma {:induction false} StillRemembered(sessions: map<string, string>, between: seq<Call>, session: string)
    requires session in sessions && (forall c <- between :: !NamesFlags(c, session))
    ensures session in After(sessions, between) && After(sessions, between)[session] == sessions[session]
    decreases |between|
  {
    hide Merged, Joined, NamesFlags, SessionOf, OwnFlagsAt;
    if between != [] {
      NamesFlagsIff(between[0], session);
      assert between[0] in between && forall c <- between[1..] :: c in between;
      StillRemembered(Remembered(sessions, between[0].args, between[0].env), between[1..], session);
    }
  }

  /** Every other argument stays where it was. */
  lemma OthersStay(sessions: map<string, string>, args: seq<string>, env: Option<string>, i: nat)
    requires i < |args| && OwnFlagsAt(args) != Some(i)
    ensures var out := Launched(sessions, args, env);
      && i < |out| && out[i] == args[i]
      && |out| == |args| + if OwnFlagsAt(args).Some? then 0 else 2
  {
    hide Merged, Joined;
  }

  // ---- twice is once --------------------------------------------------------------------------------

  /** What one environment remembers. */
  ghost predicate FromOne(sessions: map<string, string>, env: Option<string>) {
    forall s <- sessions :: exists v :: sessions[s] == Joined(Merged(env, v))
  }

  lemma RememberedFromOne(sessions: map<string, string>, args: seq<string>, env: Option<string>)
    requires FromOne(sessions, env)
    ensures FromOne(Remembered(sessions, args, env), env)
  {
    hide Merged, Joined;
  }

  lemma OneFlag(f: string)
    requires Clean(f)
    ensures FlagsOf(f) == [f]
  {
    hide Trim;
    SplitAtComma(f, "");
    CleanedOne(f);
  }

  lemma CleanedOne(f: string)
    requires Clean(f)
    ensures Cleaned([f]) == [f]
  {
    hide Trim;
    assert [f][1..] == [];
    assert [f] + [] == [f];
  }

  lemma BaseIsClean()
    ensures Clean(BASE)
  {
    assert BASE[0] == '-' && BASE[|BASE| - 1] == 'n';
    assert forall i :: 0 <= i < |BASE| ==> BASE[i] != ',';
  }

  lemma BaseIsMerged(env: Option<string>, caller: Option<string>)
    ensures BASE in Merged(env, caller)
  {
    hide FlagsOf, EnvFlags, First, Distinct, Clean;
    BaseIsClean();
    OneFlag(BASE);
    MergingMeans(env, caller);
  }

  /** A merged value is never the name of an option itself. */
  lemma MergedIsNoName(env: Option<string>, caller: Option<string>, name: string)
    requires Clean(name) && name != BASE
    ensures Joined(Merged(env, caller)) != name
  {
    hide FlagsOf, EnvFlags, First, Distinct, Joined, Clean;
    MergedIsClean(env, caller);
    JoinedReadsBack(Merged(env, caller));
    BaseIsMerged(env, caller);
    OneFlag(name);
  }

  lemma {:induction false} HistoryFromOne(sessions: map<string, string>, calls: seq<Call>, env: Option<string>)
    requires FromOne(sessions, env) && forall c <- calls :: c.env == env
    ensures FromOne(After(sessions, calls), env)
    decreases |calls|
  {
    hide FromOne, Remembered;
    if calls != [] {
      assert calls[0] in calls && forall c <- calls[1..] :: c in calls;
      RememberedFromOne(sessions, calls[0].args, env);
      HistoryFromOne(Remembered(sessions, calls[0].args, env), calls[1..], env);
    }
  }

  /** After any calls under one environment, launching what was already launched gives it back if and
      only if the first `--args` was not the last argument. */
  lemma TwiceIsOnceIff(calls: seq<Call>, args: seq<string>, env: Option<string>)
    requires forall c <- calls :: c.env == env
    ensures var sessions := After(map[], calls);
      var once := Launched(sessions, args, env);
      var twice := Launched(Remembered(sessions, args, env), once, env);
      twice == once <==> args == [] || IndexOf(args, "--args") != |args| - 1
  {
    hide Merged, Joined, Clean, Launched, Remembered, After;
    HistoryFromOne(map[], calls, env);
    var sessions := After(map[], calls);
    if args == [] || IndexOf(args, "--args") != |args| - 1 {
      if OwnFlagsAt(args).Some? { TwiceWithOwn(sessions, args, env); } else { TwiceWithout(sessions, args, env); }
    } else {
      TwiceDangling(sessions, args, env);
    }
  }

  lemma TwiceWithOwn(sessions: map<string, string>, args: seq<string>, env: Option<string>)
    requires OwnFlagsAt(args).Some?
    ensures var once := Launched(sessions, args, env);
      Launched(Remembered(sessions, args, env), once, env) == once
  {
    hide Merged, Joined, Clean, SessionOf;
    var once := Launched(sessions, args, env);
    var at := IndexOf(args, "--args");
    MergingTwice(env, Some(args[at + 1]));
    FirstPlace(once, at);
  }

  lemma TwiceWithout(sessions: map<string, string>, args: seq<string>, env: Option<string>)
    requires FromOne(sessions, env) && IndexOf(args, "--args") == |args|
    ensures var once := Launched(sessions, args, env);
      Launched(Remembered(sessions, args, env), once, env) == once
  {
    hide Merged, Joined, Clean, SessionOf;
    var once := Launched(sessions, args, env);
    var v :| once[|args| + 1] == Joined(Merged(env, v));
    MergingTwice(env, v);
    FirstPlace(once, |args|);
  }

  lemma TwiceDangling(sessions: map<string, string>, args: seq<string>, env: Option<string>)
    requires args != [] && IndexOf(args, "--args") == |args| - 1
    ensures var once := Launched(sessions, args, env);
      Launched(Remembered(sessions, args, env), once, env) != once
  {
    hide Launched, Merged, Joined, Clean, SessionOf, Remembered, IndexOf;
    var once := Launched(sessions, args, env);
    DanglingIsItsValue(sessions, args, env);
    NameIsClean();
    MergedIsNoName(env, Some("--args"), "--args");
    OwnAt(Remembered(sessions, args, env), once, env, |args|);
  }

  lemma DanglingIsItsValue(sessions: map<string, string>, args: seq<string>, env: Option<string>)
    requires args != [] && IndexOf(args, "--args") == |args| - 1
    ensures var once := Launched(sessions, args, env);
      OwnFlagsAt(once) == Some(|args|) && once[|args|] == "--args"
  {
    hide Launched, IndexOf;
    var once := Launched(sessions, args, env);
    AppendsTwo(sessions, args, env);
    FirstPlace(once, |args| - 1);
  }

  lemma AppendsTwo(sessions: map<string, string>, args: seq<string>, env: Option<string>)
    requires OwnFlagsAt(args).None?
    ensures var once := Launched(sessions, args, env);
      |once| == |args| + 2 && once[|args|] == "--args" && forall j :: 0 <= j < |args| ==> once[j] == args[j]
  {
    hide Merged, Joined, SessionOf, IndexOf;
  }

  lemma OwnAt(sessions: map<string, string>, args: seq<string>, env: Option<string>, at: nat)
    requires OwnFlagsAt(args) == Some(at)
    ensures Launched(sessions, args, env)[at] == Joined(Merged(env, Some(args[at])))
  {
    hide Merged, Joined, SessionOf;
  }

  lemma NameIsClean()
    ensures Clean("--args") && "--args" != BASE
  {}

  lemma {:induction false} FirstPlace(args: seq<string>, at: nat)
    requires at < |args| && args[at] == "--args" && forall j :: 0 <= j < at ==> args[j] != "--args"
    ensures IndexOf(args, "--args") == at
  {}
}
