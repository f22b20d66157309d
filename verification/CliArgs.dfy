/**
 The command-line parser and its canonical printer. Which flags are boolean, and where the command
 starts in an argument list, are parameters: what is proved holds for any answer.
 */
module CliArgs {
  import opened Prelude

  datatype FlagValue = True | Text(text: string)
  datatype FlagEntry = FlagEntry(name: string, value: FlagValue)
  type Flags = map<string, FlagValue>
  datatype ParsedArgs = ParsedArgs(commandPath: seq<string>, flags: Flags)
  datatype Spec = Spec(path: seq<string>, aliases: seq<seq<string>>, repeatableFlags: Option<set<string>>)
  /** The program's tables: boolean flags, and the index of the command in an argument list. */
  datatype Tables = Tables(booleans: set<string>, commandIndex: seq<string> -> int)

  const SEPARATOR: char := 0 as char
  const REPEATABLE: set<string> := {"label", "skill"}

  predicate Dashed(token: string) { |token| >= 2 && token[0] == '-' && token[1] == '-' }

  function IndexOf(s: string, c: char): (i: nat)
    ensures i <= |s| && c !in s[..i] && (i < |s| ==> s[i] == c)
    ensures i < |s| <==> c in s
  {
    if s == "" || s[0] == c then 0
    else
      var i := IndexOf(s[1..], c);
      assert s[..i + 1] == [s[0]] + s[1..][..i];
      i + 1
  }

  // ---------- reading the tokens ----------

  datatype Scanned = Scanned(path: seq<string>, entries: seq<FlagEntry>)

  function WithFlag(p: Scanned, name: string, value: FlagValue): Scanned {
    p.(entries := p.entries + [FlagEntry(name, value)])
  }

  /** Reads the tokens from position `at` on, of which `rest` are left. */
  function Scan(t: Tables, rest: seq<string>, at: nat, command: int, p: Scanned): Scanned
    decreases |rest|
  {
    if rest == [] then p
    else if !Dashed(rest[0]) then Scan(t, rest[1..], at + 1, command, p.(path := p.path + [rest[0]]))
    else
      var flag := rest[0][2..];
      var equals := IndexOf(flag, '=');
      if equals < |flag| then
        Scan(t, rest[1..], at + 1, command, WithFlag(p, flag[..equals], Text(flag[equals + 1..])))
      else if flag in t.booleans || (p.path == [] && at + 1 == command) || |rest| == 1 || Dashed(rest[1]) then
        Scan(t, rest[1..], at + 1, command, WithFlag(p, flag, True))
      else
        Scan(t, rest[2..], at + 2, command, WithFlag(p, flag, Text(rest[1])))
  }

  // ---------- collecting the flags ----------

  function SetFlagValue(flags: Flags, name: string, value: string, repeatable: set<string>): Flags {
    if name in flags && flags[name].Text? && name in repeatable
    then flags[name := Text(flags[name].text + [SEPARATOR] + value)]
    else flags[name := Text(value)]
  }

  function Collect(entries: seq<FlagEntry>, repeatable: set<string>): Flags {
    if entries == [] then map[]
    else
      var flags, e := Collect(entries[..|entries| - 1], repeatable), entries[|entries| - 1];
      if e.value.Text? then SetFlagValue(flags, e.name, e.value.text, repeatable) else flags[e.name := True]
  }

  // ---------- the command's own repeatable flags ----------

  function SpecPaths(spec: Spec): seq<seq<string>> { [spec.path] + spec.aliases }

  /** The candidates in the order they are looked at. */
  function Candidates(specs: seq<Spec>): seq<(Spec, seq<string>)> {
    if specs == [] then []
    else
      var last := specs[|specs| - 1];
      Candidates(specs[..|specs| - 1]) + CandidatesOf(last, SpecPaths(last))
  }

  function CandidatesOf(spec: Spec, paths: seq<seq<string>>): seq<(Spec, seq<string>)> {
    seq(|paths|, i requires 0 <= i < |paths| => (spec, paths[i]))
  }

  /** The first of the longest paths that start the given one. */
  predicate IsBest(candidates: seq<(Spec, seq<string>)>, path: seq<string>, best: Option<(Spec, nat)>) {
    match best
    case None => forall c <- candidates :: !(c.1 <= path)
    case Some((spec, length)) =>
      exists k ::
        && 0 <= k < |candidates| && candidates[k].0 == spec && |candidates[k].1| == length && candidates[k].1 <= path
        && (forall j :: 0 <= j < |candidates| && candidates[j].1 <= path ==> |candidates[j].1| <= length)
        && (forall j :: 0 <= j < k && candidates[j].1 <= path ==> |candidates[j].1| < length)
  }

  method SpecForPathPrefix(specs: seq<Spec>, path: seq<string>) returns (best: Option<(Spec, nat)>)
    ensures IsBest(Candidates(specs), path, best)
  {
    best := None;
    for i := 0 to |specs|
      invariant IsBest(Candidates(specs[..i]), path, best)
    {
      var spec := specs[i];
      var paths := SpecPaths(spec);
      ghost var before := Candidates(specs[..i]);
      assert before + CandidatesOf(spec, paths)[..0] == before;
      for k := 0 to |paths|
        invariant IsBest(before + CandidatesOf(spec, paths)[..k], path, best)
      {
        ghost var seen := before + CandidatesOf(spec, paths)[..k];
        assert before + CandidatesOf(spec, paths)[..k + 1] == seen + [(spec, paths[k])];
        BestStep(seen, path, best, spec, paths[k]);
        if paths[k] <= path && (best.None? || |paths[k]| > best.value.1) {
          best := Some((spec, |paths[k]|));
        }
      }
      assert CandidatesOf(spec, paths)[..|paths|] == CandidatesOf(spec, paths);
      assert specs[..i + 1][..i] == specs[..i];
    }
    assert specs[..|specs|] == specs;
  }

  lemma {:induction false} BestStep(
    seen: seq<(Spec, seq<string>)>, path: seq<string>, best: Option<(Spec, nat)>, spec: Spec, candidate: seq<string>)
    requires IsBest(seen, path, best)
    ensures IsBest(seen + [(spec, candidate)], path,
                   if candidate <= path && (best.None? || |candidate| > best.value.1)
                   then Some((spec, |candidate|)) else best)
  {
    var all := seen + [(spec, candidate)];
    if candidate <= path && (best.None? || |candidate| > best.value.1) {
      forall j | 0 <= j < |seen| && seen[j].1 <= path ensures |seen[j].1| < |candidate| {
        assert seen[j] in seen;
      }
      assert all[|seen|] == (spec, candidate);
    } else if best.Some? {
      var k :| && 0 <= k < |seen| && seen[k].0 == best.value.0 && |seen[k].1| == best.value.1 && seen[k].1 <= path
               && (forall j :: 0 <= j < |seen| && seen[j].1 <= path ==> |seen[j].1| <= best.value.1)
               && (forall j :: 0 <= j < k && seen[j].1 <= path ==> |seen[j].1| < best.value.1);
      assert all[k] == seen[k];
    }
  }

  /** The spec the flags of a command path are read with, as the method finds it. */
  function BestOf(candidates: seq<(Spec, seq<string>)>, path: seq<string>): (best: Option<(Spec, nat)>)
    ensures IsBest(candidates, path, best)
  {
    if candidates == [] then None
    else
      var c, best := candidates[|candidates| - 1], BestOf(candidates[..|candidates| - 1], path);
      BestStep(candidates[..|candidates| - 1], path, best, c.0, c.1);
      assert candidates == candidates[..|candidates| - 1] + [(c.0, c.1)];
      if c.1 <= path && (best.None? || |c.1| > best.value.1) then Some((c.0, |c.1|)) else best
  }

  lemma {:induction false} BestIsUnique(
    candidates: seq<(Spec, seq<string>)>, path: seq<string>, a: Option<(Spec, nat)>, b: Option<(Spec, nat)>)
    requires IsBest(candidates, path, a) && IsBest(candidates, path, b)
    ensures a == b
  {
    if a.Some? && b.Some? {
      var k :| && 0 <= k < |candidates| && candidates[k].0 == a.value.0 && |candidates[k].1| == a.value.1
               && candidates[k].1 <= path
               && (forall j :: 0 <= j < k && candidates[j].1 <= path ==> |candidates[j].1| < a.value.1);
      var l :| && 0 <= l < |candidates| && candidates[l].0 == b.value.0 && |candidates[l].1| == b.value.1
               && candidates[l].1 <= path
               && (forall j :: 0 <= j < l && candidates[j].1 <= path ==> |candidates[j].1| < b.value.1);
      assert a.value.1 == b.value.1;
      assert k == l;
    }
  }

  function RepeatableFor(specs: seq<Spec>, path: seq<string>): set<string> {
    var best := BestOf(Candidates(specs), path);
    if best.Some? && best.value.0.repeatableFlags.Some? then REPEATABLE + best.value.0.repeatableFlags.value
    else REPEATABLE
  }

  // ---------- the parser ----------

  function Parsed(t: Tables, argv: seq<string>, specs: seq<Spec>): ParsedArgs {
    var scanned := Scan(t, argv, 0, t.commandIndex(argv), Scanned([], []));
    ParsedArgs(scanned.path, Collect(scanned.entries, RepeatableFor(specs, scanned.path)))
  }

  method ParseArgs(t: Tables, argv: seq<string>, specs: seq<Spec>) returns (parsed: ParsedArgs)
    ensures parsed == Parsed(t, argv, specs)
  {
    hide Collect;
    var commandPath: seq<string> := [];
    var flagEntries: seq<FlagEntry> := [];
    var commandIndex := t.commandIndex(argv);
    var i := 0;
    while i < |argv|
      invariant 0 <= i <= |argv|
      invariant Scan(t, argv, 0, commandIndex, Scanned([], []))
             == Scan(t, argv[i..], i, commandIndex, Scanned(commandPath, flagEntries))
      decreases |argv| - i
    {
      assert argv[i..][1..] == argv[i + 1..];
      var token := argv[i];
      if !Dashed(token) {
        commandPath := commandPath + [token];
      } else {
        var flag := token[2..];
        var equals := IndexOf(flag, '=');
        if equals < |flag| {
          flagEntries := flagEntries + [FlagEntry(flag[..equals], Text(flag[equals + 1..]))];
        } else if flag in t.booleans {
          flagEntries := flagEntries + [FlagEntry(flag, True)];
        } else if commandPath == [] && i + 1 == commandIndex {
          flagEntries := flagEntries + [FlagEntry(flag, True)];
        } else if i + 1 >= |argv| || Dashed(argv[i + 1]) {
          flagEntries := flagEntries + [FlagEntry(flag, True)];
        } else {
          assert argv[i..][2..] == argv[i + 2..] && argv[i..][1] == argv[i + 1];
          flagEntries := flagEntries + [FlagEntry(flag, Text(argv[i + 1]))];
          i := i + 1;
        }
      }
      i := i + 1;
    }
    var best := SpecForPathPrefix(specs, commandPath);
    BestIsUnique(Candidates(specs), commandPath, best, BestOf(Candidates(specs), commandPath));
    var repeatable := REPEATABLE;
    if best.Some? && best.value.0.repeatableFlags.Some? {
      repeatable := REPEATABLE + best.value.0.repeatableFlags.value;
    }
    var flags := CollectFlags(flagEntries, repeatable);
    return ParsedArgs(commandPath, flags);
  }

  method CollectFlags(entries: seq<FlagEntry>, repeatable: set<string>) returns (flags: Flags)
    ensures flags == Collect(entries, repeatable)
  {
    flags := map[];
    for k := 0 to |entries|
      invariant flags == Collect(entries[..k], repeatable)
    {
      assert entries[..k + 1][..k] == entries[..k];
      if entries[k].value.Text? {
        flags := SetFlagValue(flags, entries[k].name, entries[k].value.text, repeatable);
      } else {
        flags := flags[entries[k].name := True];
      }
    }
    assert entries[..|entries|] == entries;
  }
}
