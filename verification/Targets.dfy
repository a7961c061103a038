/** The target engine: validation of a targets file, lookup, resolution and the reload preview. */
module Targets {

  import opened Protocol
  import opened Text
  import opened EnvSubst

  datatype Kind = Local | Virtual

  datatype Target = Target(
    name: string, display: string, kind: Kind, command: Option<string>, args: seq<string>, env: map<string, string>,
    tags: seq<string>, adminOnly: bool, shell: Option<string>)

  /** The Unicode White_Space property, which trimming goes by. */
  predicate IsSpace(c: char) {
    var n := c as int;
    9 <= n <= 13 || n == 0x20 || n == 0x85 || n == 0xA0 || n == 0x1680 || 0x2000 <= n <= 0x200A
    || n == 0x2028 || n == 0x2029 || n == 0x202F || n == 0x205F || n == 0x3000
  }

  /** Nothing is left of `s` after trimming. */
  predicate Blank(s: string) { forall i :: 0 <= i < |s| ==> IsSpace(s[i]) }

  // ---- validation ----

  datatype Problem =
    | NameEmpty(index: nat) | DuplicateName(index: nat) | DisplayEmpty(index: nat)
    | CommandMissing(index: nat) | CommandBlank(index: nat)

  predicate Repeated(targets: seq<Target>, i: nat)
    requires i < |targets|
  {
    exists j :: 0 <= j < i && targets[j].name == targets[i].name
  }

  /** What a targets file must satisfy. */
  predicate Validated(targets: seq<Target>) {
    (forall i :: 0 <= i < |targets| ==> Complete(targets[i])) && Unique(targets)
  }

  predicate Complete(t: Target) {
    !Blank(t.name) && !Blank(t.display) && (t.kind.Virtual? ==> t.command.Some? && !Blank(t.command.value))
  }

  predicate Unique(targets: seq<Target>) {
    forall i, j :: 0 <= i < j < |targets| ==> targets[i].name != targets[j].name
  }

  /** The problems of one entry, in the order they are reported. */
  function EntryProblems(t: Target, i: nat, repeated: bool): seq<Problem> {
    (if Blank(t.name) then [NameEmpty(i)] else if repeated then [DuplicateName(i)] else [])
    + (if Blank(t.display) then [DisplayEmpty(i)] else [])
    + (if t.kind.Local? then []
       else if t.command.None? then [CommandMissing(i)]
       else if Blank(t.command.value) then [CommandBlank(i)] else [])
  }

  function ProblemsAt(targets: seq<Target>, i: nat): seq<Problem>
    requires i < |targets|
  {
    EntryProblems(targets[i], i, Repeated(targets, i))
  }

  function Problems(targets: seq<Target>, k: nat): seq<Problem>
    requires k <= |targets|
  {
    if k == 0 then [] else Problems(targets, k - 1) + ProblemsAt(targets, k - 1)
  }

  /** The validation loop, with its set of names seen so far. */
  method ValidateTargets(targets: seq<Target>) returns (problems: seq<Problem>)
    ensures problems == Problems(targets, |targets|)
  {
    problems := [];
    var seen: set<string> := {};
    var i := 0;
    while i < |targets|
      invariant 0 <= i <= |targets|
      invariant seen == SeenBefore(targets, i)
      invariant problems == Problems(targets, i)
    {
      var found: seq<Problem>;
      SeenNext(targets, i);
      found, seen := CheckEntry(targets[i], i, seen);
      problems := problems + found;
      i := i + 1;
    }
  }

  function SeenBefore(targets: seq<Target>, k: nat): set<string>
    requires k <= |targets|
  {
    set j | 0 <= j < k && !Blank(targets[j].name) :: targets[j].name
  }

  lemma SeenNext(targets: seq<Target>, i: nat)
    requires i < |targets|
    ensures SeenBefore(targets, i + 1)
         == SeenBefore(targets, i) + (if Blank(targets[i].name) then {} else {targets[i].name})
    ensures !Blank(targets[i].name) ==> (targets[i].name in SeenBefore(targets, i) <==> Repeated(targets, i))
  {
    if !Blank(targets[i].name) && Repeated(targets, i) {
      var j :| 0 <= j < i && targets[j].name == targets[i].name;
      assert targets[j].name in SeenBefore(targets, i);
    }
  }

  method CheckEntry(t: Target, i: nat, seen: set<string>) returns (found: seq<Problem>, seen': set<string>)
    ensures found == EntryProblems(t, i, t.name in seen)
    ensures seen' == seen + if Blank(t.name) then {} else {t.name}
  {
    found, seen' := [], seen;
    if Blank(t.name) {
      found := found + [NameEmpty(i)];
    } else if t.name in seen {
      found := found + [DuplicateName(i)];
    } else {
      seen' := seen + {t.name};
    }
    if Blank(t.display) {
      found := found + [DisplayEmpty(i)];
    }
    if t.kind.Virtual? {
      if t.command.None? {
        found := found + [CommandMissing(i)];
      } else if Blank(t.command.value) {
        found := found + [CommandBlank(i)];
      }
    }
  }

  lemma {:induction false} NoProblemsUpTo(targets: seq<Target>, k: nat)
    requires k <= |targets|
    ensures Problems(targets, k) == [] <==> forall i :: 0 <= i < k ==> ProblemsAt(targets, i) == []
  {
    if k > 0 {
      NoProblemsUpTo(targets, k - 1);
    }
  }

  lemma CleanEntry(targets: seq<Target>, i: nat)
    requires i < |targets|
    ensures ProblemsAt(targets, i) == [] <==> Complete(targets[i]) && !Repeated(targets, i)
  {
  }

  lemma UniqueIff(targets: seq<Target>)
    ensures Unique(targets) <==> forall i :: 0 <= i < |targets| ==> !Repeated(targets, i)
  {
    if !Unique(targets) {
      var i, j :| 0 <= i < j < |targets| && targets[i].name == targets[j].name;
      assert Repeated(targets, j);
    }
  }

  /** A file passes exactly when it is well formed. */
  lemma NoProblemsIff(targets: seq<Target>)
    ensures Problems(targets, |targets|) == [] <==> Validated(targets)
  {
    NoProblemsUpTo(targets, |targets|);
    UniqueIff(targets);
    forall i | 0 <= i < |targets|
      ensures ProblemsAt(targets, i) == [] <==> Complete(targets[i]) && !Repeated(targets, i)
    {
      CleanEntry(targets, i);
    }
  }

  /** The entry that a problem is about. */
  predicate Has(targets: seq<Target>, p: Problem) {
    p.index < |targets| &&
    var t := targets[p.index];
    match p
    case NameEmpty(_) => Blank(t.name)
    case DuplicateName(i) => !Blank(t.name) && exists j :: 0 <= j < i && targets[j].name == t.name
    case DisplayEmpty(_) => Blank(t.display)
    case CommandMissing(_) => t.kind.Virtual? && t.command.None?
    case CommandBlank(_) => t.kind.Virtual? && t.command.Some? && Blank(t.command.value)
  }

  function Rank(p: Problem): nat {
    match p
    case NameEmpty(_) => 0
    case DuplicateName(_) => 0
    case DisplayEmpty(_) => 1
    case _ => 2
  }

  /** Entry by entry, and within an entry name before display name before command. */
  predicate Sooner(p: Problem, q: Problem) { p.index < q.index || (p.index == q.index && Rank(p) < Rank(q)) }

  lemma ProblemsStep(targets: seq<Target>, k: nat)
    requires 0 < k <= |targets|
    ensures Problems(targets, k) == Problems(targets, k - 1) + ProblemsAt(targets, k - 1)
  {
  }

  lemma {:induction false} ProblemIn(targets: seq<Target>, k: nat, p: Problem)
    requires k <= |targets|
    ensures p in Problems(targets, k) <==> p.index < k && Has(targets, p)
    decreases k
  {
    hide *;
    if k == 0 {
      NoneAtFirst(targets);
    } else {
      ProblemsStep(targets, k);
      ProblemIn(targets, k - 1, p);
      EntryHas(targets, k - 1, p);
      InConcat(Problems(targets, k - 1), ProblemsAt(targets, k - 1), p);
    }
  }

  lemma NoneAtFirst(targets: seq<Target>)
    ensures Problems(targets, 0) == [] && InOrder([])
  {
  }

  lemma InConcat(a: seq<Problem>, b: seq<Problem>, p: Problem)
    ensures p in a + b <==> p in a || p in b
  {
  }

  lemma {:induction false} ProblemsInOrder(targets: seq<Target>, k: nat)
    requires k <= |targets|
    ensures InOrder(Problems(targets, k))
    decreases k
  {
    hide *;
    if k == 0 {
      NoneAtFirst(targets);
    } else {
      ProblemsStep(targets, k);
      ProblemsInOrder(targets, k - 1);
      EntryInOrder(targets, k - 1);
      forall p | p in Problems(targets, k - 1) ensures p.index < k - 1 {
        ProblemIn(targets, k - 1, p);
      }
      forall p | p in ProblemsAt(targets, k - 1) ensures p.index == k - 1 {
        EntryHas(targets, k - 1, p);
      }
      InOrderConcat(Problems(targets, k - 1), ProblemsAt(targets, k - 1), k - 1);
    }
  }

  ghost predicate InOrder(ps: seq<Problem>) { forall i, j :: 0 <= i < j < |ps| ==> Sooner(ps[i], ps[j]) }

  lemma InOrderConcat(front: seq<Problem>, more: seq<Problem>, k: nat)
    requires InOrder(front) && InOrder(more)
    requires (forall p :: p in front ==> p.index < k) && (forall p :: p in more ==> p.index == k)
    ensures InOrder(front + more)
  {
    forall i, j | 0 <= i < j < |front + more| ensures Sooner((front + more)[i], (front + more)[j]) {
      if i < |front| <= j {
        assert (front + more)[i] in front && (front + more)[j] in more;
      }
    }
  }

  lemma EntryHas(targets: seq<Target>, i: nat, p: Problem)
    requires i < |targets|
    ensures p in ProblemsAt(targets, i) <==> p.index == i && Has(targets, p)
  {
    hide Blank;
  }

  lemma EntryInOrder(targets: seq<Target>, i: nat)
    requires i < |targets|
    ensures InOrder(ProblemsAt(targets, i))
  {
    hide Blank, Repeated, Has;
    var t := targets[i];
    var names := if Blank(t.name) then [NameEmpty(i)] else if Repeated(targets, i) then [DuplicateName(i)] else [];
    var displays := if Blank(t.display) then [DisplayEmpty(i)] else [];
    var commands := if t.kind.Local? then []
                    else if t.command.None? then [CommandMissing(i)]
                    else if Blank(t.command.value) then [CommandBlank(i)] else [];
    assert ProblemsAt(targets, i) == names + displays + commands;
    RanksInOrder(names, displays, commands, i);
  }

  lemma RanksInOrder(a: seq<Problem>, b: seq<Problem>, c: seq<Problem>, i: nat)
    requires |a| <= 1 && |b| <= 1 && |c| <= 1 && forall p :: p in a + b + c ==> p.index == i
    requires (a != [] ==> Rank(a[0]) == 0) && (b != [] ==> Rank(b[0]) == 1) && (c != [] ==> Rank(c[0]) == 2)
    ensures InOrder(a + b + c)
  {
    hide Rank;
    forall p | p in a ensures p in a + b + c {
    }
    forall p | p in b ensures p in a + b + c {
    }
    forall p | p in c ensures p in a + b + c {
    }
  }

  lemma IndexInside(targets: seq<Target>, p: Problem)
    ensures Has(targets, p) ==> p.index < |targets|
  {
  }

  /** The problems listed are exactly those the entries have, in order and none twice. */
  lemma ProblemsAreThose(targets: seq<Target>)
    ensures var ps := Problems(targets, |targets|);
            && (forall p :: p in ps <==> Has(targets, p))
            && InOrder(ps)
  {
    hide Has, Problems, InOrder;
    ProblemsInOrder(targets, |targets|);
    forall p: Problem ensures p in Problems(targets, |targets|) <==> Has(targets, p) {
      ProblemIn(targets, |targets|, p);
      IndexInside(targets, p);
    }
  }

  const LOCAL_SHELL := Target("local-shell", "Local Shell", Local, None, [], map[], [], false, None)

  datatype Loaded = Engine(targets: seq<Target>) | Invalid(problems: seq<Problem>)

  /** What follows parsing: the built-in shell is added unless a local target exists. */
  method FromConfig(config: seq<Target>) returns (r: Loaded)
    ensures var all := if exists i :: 0 <= i < |config| && config[i].kind.Local?
                       then config else config + [LOCAL_SHELL];
            r == if Validated(all) then Engine(all) else Invalid(Problems(all, |all|))
    ensures r.Engine? ==> exists i :: 0 <= i < |r.targets| && r.targets[i].kind.Local?
  {
    var targets := config;
    if !(exists i :: 0 <= i < |config| && config[i].kind.Local?) {
      targets := targets + [LOCAL_SHELL];
      assert targets[|config|].kind.Local?;
    }
    var problems := ValidateTargets(targets);
    NoProblemsIff(targets);
    r := if problems == [] then Engine(targets) else Invalid(problems);
  }

  // ---- lookup ----

  function Find(targets: seq<Target>, name: string): Option<Target> {
    if targets == [] then None
    else if targets[0].name == name then Some(targets[0])
    else Find(targets[1..], name)
  }

  lemma {:induction false} FindsFirst(targets: seq<Target>, name: string)
    ensures Find(targets, name).None? <==> forall i :: 0 <= i < |targets| ==> targets[i].name != name
    ensures Find(targets, name).Some? ==> Find(targets, name).value.name == name && Find(targets, name).value in targets
  {
    if targets != [] {
      FindsFirst(targets[1..], name);
      assert forall i :: 0 < i < |targets| ==> targets[i] == targets[1..][i - 1];
    }
  }

  datatype Launch = Launch(command: string, args: seq<string>, env: map<string, string>)

  function ExpandAll(args: seq<string>, env: Env): (r: seq<string>)
    ensures |r| == |args|
  {
    if args == [] then [] else [Expand(args[0], env)] + ExpandAll(args[1..], env)
  }

  /** The command line of a target: every text expanded once, keys of its environment untouched. */
  function Resolve(targets: seq<Target>, name: string, env: Env, defaultShell: string): Option<Launch> {
    var found := Find(targets, name);
    if found.None? then None
    else
      var t := found.value;
      if t.kind.Local? then
        Some(Launch(if t.shell.Some? then Expand(t.shell.value, env) else defaultShell, [], map[]))
      else if t.command.None? then None
      else
        Some(Launch(Expand(t.command.value, env), ExpandAll(t.args, env), map k | k in t.env :: Expand(t.env[k], env)))
  }

  /** In a validated engine every name that is found also resolves, under any environment. */
  lemma FoundResolves(targets: seq<Target>, name: string, env: Env, defaultShell: string)
    requires Validated(targets)
    ensures Find(targets, name).Some? <==> Resolve(targets, name, env, defaultShell).Some?
  {
    FindsFirst(targets, name);
  }

  function QuoteAll(args: seq<string>): (r: seq<string>)
    ensures |r| == |args|
  {
    if args == [] then [] else [Quote(args[0])] + QuoteAll(args[1..])
  }

  lemma {:induction false} QuotedArgsAreVerbatim(args: seq<string>, env: Env)
    ensures ExpandAll(QuoteAll(args), env) == args
  {
    if args != [] {
      QuoteExpands(args[0], env);
      QuotedArgsAreVerbatim(args[1..], env);
      assert QuoteAll(args)[1..] == QuoteAll(args[1..]);
    }
  }

  /** Resolution expands each text exactly once: a virtual target whose texts are quoted
      launches the unquoted texts, whatever the environment, and no text is left out. */
  lemma QuotedTargetIsVerbatim(t: Target, launch: Launch, env: Env, defaultShell: string)
    requires t.kind.Virtual? && t.command == Some(Quote(launch.command)) && t.args == QuoteAll(launch.args)
    requires t.env == map k | k in launch.env :: Quote(launch.env[k])
    ensures Resolve([t], t.name, env, defaultShell) == Some(launch)
  {
    QuoteExpands(launch.command, env);
    QuotedArgsAreVerbatim(launch.args, env);
    forall k | k in launch.env ensures Expand(t.env[k], env) == launch.env[k] {
      QuoteExpands(launch.env[k], env);
    }
    assert (map k | k in t.env :: Expand(t.env[k], env)) == launch.env;
  }

  /** A local target launches its own shell, expanded, or the default one, with nothing else. */
  lemma LocalTargetLaunchesShell(targets: seq<Target>, t: Target, env: Env, defaultShell: string, shell: string)
    requires Unique(targets) && t in targets && t.kind.Local?
    ensures t.shell.None? ==> Resolve(targets, t.name, env, defaultShell) == Some(Launch(defaultShell, [], map[]))
    ensures t.shell.Some? ==>
              Resolve(targets, t.name, env, defaultShell) == Some(Launch(Expand(t.shell.value, env), [], map[]))
    ensures t.shell == Some(Quote(shell)) ==>
              Resolve(targets, t.name, env, defaultShell) == Some(Launch(shell, [], map[]))
  {
    FindsIts(targets, t);
    QuoteExpands(shell, env);
  }

  lemma FindsIts(targets: seq<Target>, t: Target)
    requires Unique(targets) && t in targets
    ensures Find(targets, t.name) == Some(t)
  {
    FindsFirst(targets, t.name);
  }

  /** A virtual target launches its command and arguments and sets its variables, each text
      expanded, whatever else is in the engine. */
  lemma VirtualTargetLaunches(targets: seq<Target>, t: Target, env: Env, defaultShell: string)
    requires Unique(targets) && t in targets && t.kind.Virtual? && t.command.Some?
    ensures var r := Resolve(targets, t.name, env, defaultShell);
            && r.Some? && r.value.command == Expand(t.command.value, env)
            && |r.value.args| == |t.args|
            && (forall i :: 0 <= i < |t.args| ==> r.value.args[i] == Expand(t.args[i], env))
            && r.value.env.Keys == t.env.Keys && (forall k :: k in t.env ==> r.value.env[k] == Expand(t.env[k], env))
  {
    FindsIts(targets, t);
    ExpandsEach(t.args, env);
  }

  lemma {:induction false} ExpandsEach(args: seq<string>, env: Env)
    ensures forall i :: 0 <= i < |args| ==> ExpandAll(args, env)[i] == Expand(args[i], env)
  {
    if args != [] {
      ExpandsEach(args[1..], env);
    }
  }

  // ---- sorted name lists ----

  predicate StrictlySorted(s: seq<string>) { forall i, j :: 0 <= i < j < |s| ==> LexLess(s[i], s[j]) }

  function Insert(x: string, s: seq<string>): seq<string> {
    if s == [] then [x] else if LexLess(x, s[0]) then [x] + s else [s[0]] + Insert(x, s[1..])
  }

  function Sort(s: seq<string>): seq<string> {
    if s == [] then [] else Insert(s[0], Sort(s[1..]))
  }

  lemma {:induction false} InsertKeepsSorted(x: string, s: seq<string>)
    requires StrictlySorted(s) && x !in s
    ensures StrictlySorted(Insert(x, s))
    ensures forall n :: n in Insert(x, s) <==> n == x || n in s
  {
    if s != [] {
      LexTotal(x, s[0]);
      if LexLess(x, s[0]) {
        forall j | 0 <= j < |s| ensures LexLess(x, s[j]) {
          if j > 0 {
            LexTransitive(x, s[0], s[j]);
          }
        }
      } else {
        InsertKeepsSorted(x, s[1..]);
        Prepended(s[0], Insert(x, s[1..]));
      }
    }
  }

  lemma Prepended(x: string, s: seq<string>)
    requires StrictlySorted(s) && forall n :: n in s ==> LexLess(x, n)
    ensures StrictlySorted([x] + s)
  {
  }

  predicate NoRepeats(s: seq<string>) { forall i, j :: 0 <= i < j < |s| ==> s[i] != s[j] }

  lemma {:induction false} SortSorts(s: seq<string>)
    requires NoRepeats(s)
    ensures StrictlySorted(Sort(s))
    ensures forall n :: n in Sort(s) <==> n in s
  {
    if s != [] {
      SortSorts(s[1..]);
      InsertKeepsSorted(s[0], Sort(s[1..]));
    }
  }

  lemma InTail(s: seq<string>, n: string)
    requires StrictlySorted(s) && s != []
    ensures n in s[1..] <==> n in s && n != s[0]
  {
    NotInTail(s);
    assert s == [s[0]] + s[1..];
  }

  lemma HasMember(s: seq<string>)
    requires s != []
    ensures exists n :: n in s
  {
    assert s[0] in s;
  }

  lemma {:induction false} SortedDetermined(s: seq<string>, t: seq<string>)
    requires StrictlySorted(s) && StrictlySorted(t) && forall n :: n in s <==> n in t
    ensures s == t
  {
    if s == [] {
      if t != [] {
        HasMember(t);
      }
    } else {
      assert s[0] in s && s[0] in t && t[0] in t && t[0] in s;
      if s[0] != t[0] {
        LexTransitive(s[0], t[0], s[0]);
        LexIrreflexive(s[0]);
      }
      forall n ensures n in s[1..] <==> n in t[1..] {
        InTail(s, n);
        InTail(t, n);
      }
      SortedDetermined(s[1..], t[1..]);
    }
  }

  lemma NotInTail(s: seq<string>)
    requires StrictlySorted(s) && s != []
    ensures s[0] !in s[1..]
  {
    LexIrreflexive(s[0]);
  }

  lemma {:induction false} SortedSize(s: seq<string>)
    requires StrictlySorted(s)
    ensures |set n | n in s| == |s|
  {
    if s == [] {
      assert (set n | n in s) == {};
    } else {
      SortedSize(s[1..]);
      NotInTail(s);
      assert (set n | n in s) == {s[0]} + (set n | n in s[1..]);
    }
  }

  // ---- the preview ----

  datatype TargetDiff = TargetDiff(added: seq<string>, removed: seq<string>, changed: seq<string>, same: seq<string>)

  ghost predicate IsDiff(before: seq<Target>, after: seq<Target>, d: TargetDiff) {
    && StrictlySorted(d.added) && StrictlySorted(d.removed) && StrictlySorted(d.changed) && StrictlySorted(d.same)
    && (forall n :: n in d.added <==> Find(before, n).None? && Find(after, n).Some?)
    && (forall n :: n in d.removed <==> Find(before, n).Some? && Find(after, n).None?)
    && (forall n :: n in d.changed <==>
         Find(before, n).Some? && Find(after, n).Some? && Find(before, n) != Find(after, n))
    && (forall n :: n in d.same <==> Find(before, n).Some? && Find(before, n) == Find(after, n))
  }

  /** Targets by name; of two with one name the later wins. */
  function ByName(targets: seq<Target>): map<string, Target> {
    if targets == [] then map[] else map[targets[0].name := targets[0]] + ByName(targets[1..])
  }

  lemma {:induction false} ByNameFinds(targets: seq<Target>)
    requires Unique(targets)
    ensures forall n :: n in ByName(targets) <==> Find(targets, n).Some?
    ensures forall n :: n in ByName(targets) ==> Find(targets, n) == Some(ByName(targets)[n])
  {
    if targets != [] {
      ByNameFinds(targets[1..]);
      FindsFirst(targets[1..], targets[0].name);
    }
  }

  lemma Pushed(s: seq<string>, n: string)
    requires NoRepeats(s) && n !in s
    ensures NoRepeats(s + [n]) && forall x :: x in s + [n] <==> x in s || x == n
  {
  }

  method Diff(before: seq<Target>, after: seq<Target>) returns (d: TargetDiff)
    requires Unique(before) && Unique(after)
    ensures IsDiff(before, after, d)
  {
    var oldMap, newMap := ByName(before), ByName(after);
    ByNameFinds(before);
    ByNameFinds(after);
    var added, changed, same := CompareNew(oldMap, newMap);
    var removed := MissingNames(oldMap, newMap);
    SortSorts(added);
    SortSorts(removed);
    SortSorts(changed);
    SortSorts(same);
    d := TargetDiff(Sort(added), Sort(removed), Sort(changed), Sort(same));
  }

  method CompareNew(oldMap: map<string, Target>, newMap: map<string, Target>)
    returns (added: seq<string>, changed: seq<string>, same: seq<string>)
    ensures NoRepeats(added) && NoRepeats(changed) && NoRepeats(same)
    ensures forall n :: n in added <==> n in newMap && n !in oldMap
    ensures forall n :: n in changed <==> n in newMap && n in oldMap && oldMap[n] != newMap[n]
    ensures forall n :: n in same <==> n in newMap && n in oldMap && oldMap[n] == newMap[n]
  {
    added, changed, same := [], [], [];
    var todo := newMap.Keys;
    while todo != {}
      invariant todo <= newMap.Keys
      invariant NoRepeats(added) && NoRepeats(changed) && NoRepeats(same)
      invariant forall n :: n in added <==> n in newMap && n !in todo && n !in oldMap
      invariant forall n :: n in changed <==> n in newMap && n !in todo && n in oldMap && oldMap[n] != newMap[n]
      invariant forall n :: n in same <==> n in newMap && n !in todo && n in oldMap && oldMap[n] == newMap[n]
      decreases todo
    {
      var name :| name in todo;
      todo := todo - {name};
      if name !in oldMap {
        Pushed(added, name);
        added := added + [name];
      } else if oldMap[name] == newMap[name] {
        Pushed(same, name);
        same := same + [name];
      } else {
        Pushed(changed, name);
        changed := changed + [name];
      }
    }
  }

  method MissingNames(oldMap: map<string, Target>, newMap: map<string, Target>) returns (removed: seq<string>)
    ensures NoRepeats(removed)
    ensures forall n :: n in removed <==> n in oldMap && n !in newMap
  {
    removed := [];
    var todo := oldMap.Keys;
    while todo != {}
      invariant todo <= oldMap.Keys && NoRepeats(removed)
      invariant forall n :: n in removed <==> n in oldMap && n !in todo && n !in newMap
      decreases todo
    {
      var name :| name in todo;
      todo := todo - {name};
      if name !in newMap {
        Pushed(removed, name);
        removed := removed + [name];
      }
    }
  }

  function Names(targets: seq<Target>): set<string> { set t | t in targets :: t.name }

  lemma FoundIffNamed(targets: seq<Target>, n: string)
    ensures Find(targets, n).Some? <==> n in Names(targets)
  {
    FindsFirst(targets, n);
  }

  lemma {:induction false} NamesSize(targets: seq<Target>)
    requires Unique(targets)
    ensures |Names(targets)| == |targets|
  {
    if targets == [] {
      assert Names(targets) == {};
    } else {
      var rest := targets[1..];
      NamesSize(rest);
      assert targets == [targets[0]] + rest;
      assert Names(targets) == Names(rest) + {targets[0].name};
      FindsFirst(rest, targets[0].name);
      FoundIffNamed(rest, targets[0].name);
    }
  }

  /** The old names fall into removed, changed and unchanged without overlap or rest. */
  lemma DiffPartitionsOld(before: seq<Target>, after: seq<Target>, d: TargetDiff)
    requires Unique(before) && IsDiff(before, after, d)
    ensures (set n | n in d.removed) + (set n | n in d.changed) + (set n | n in d.same) == Names(before)
    ensures |d.removed| + |d.changed| + |d.same| == |before|
  {
    OldNamesCovered(before, after, d);
    SizeOfParts(d.removed, d.changed, d.same);
    NamesSize(before);
  }

  lemma OldNamesCovered(before: seq<Target>, after: seq<Target>, d: TargetDiff)
    requires IsDiff(before, after, d)
    ensures (set n | n in d.removed) + (set n | n in d.changed) + (set n | n in d.same) == Names(before)
    ensures forall n :: !(n in d.removed && n in d.changed) && !((n in d.removed || n in d.changed) && n in d.same)
  {
    forall n ensures n in d.removed || n in d.changed || n in d.same <==> n in Names(before) {
      FoundIffNamed(before, n);
    }
  }

  lemma SizeOfParts(r: seq<string>, c: seq<string>, u: seq<string>)
    requires StrictlySorted(r) && StrictlySorted(c) && StrictlySorted(u)
    requires forall n :: !(n in r && n in c) && !((n in r || n in c) && n in u)
    ensures |(set n | n in r) + (set n | n in c) + (set n | n in u)| == |r| + |c| + |u|
  {
    SortedSize(r);
    SortedSize(c);
    SortedSize(u);
    assert (set n | n in r) !! (set n | n in c);
    assert ((set n | n in r) + (set n | n in c)) !! (set n | n in u);
  }

  /** Exchanging the engines exchanges added and removed, and nothing else. */
  lemma DiffSwaps(before: seq<Target>, after: seq<Target>, d: TargetDiff, e: TargetDiff)
    requires IsDiff(before, after, d) && IsDiff(after, before, e)
    ensures e == TargetDiff(d.removed, d.added, d.changed, d.same)
  {
    SortedDetermined(e.added, d.removed);
    SortedDetermined(e.removed, d.added);
    SortedDetermined(e.changed, d.changed);
    SortedDetermined(e.same, d.same);
  }

  /** The new names fall into added, changed and unchanged without overlap or rest. */
  lemma DiffPartitionsNew(before: seq<Target>, after: seq<Target>, d: TargetDiff)
    requires Unique(after) && IsDiff(before, after, d)
    ensures (set n | n in d.added) + (set n | n in d.changed) + (set n | n in d.same) == Names(after)
    ensures |d.added| + |d.changed| + |d.same| == |after|
  {
    DiffPartitionsOld(after, before, TargetDiff(d.removed, d.added, d.changed, d.same));
  }
}
