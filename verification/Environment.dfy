/** Environments (env.c): null-terminated arrays of "NAME=value" strings that are updated in place
    or reallocated, proved to behave like maps from names to values. */
module Environment {
  import opened Common
  import opened CronText

  /** A C string holds no zero character. */
  predicate CString(s: string) { ZERO !in s }

  function Prefix(s: string, until: char): string {
    s[..RunEnd(s, 0, Until([until]))]
  }

  function NameOf(s: string): string { Prefix(s, '=') }

  predicate IsSetting(s: string) { '=' in s }

  function ValueOf(s: string): string
    requires IsSetting(s)
  {
    EqualsSign(s);
    s[|NameOf(s)| + 1..]
  }

  lemma EqualsSign(s: string)
    ensures |NameOf(s)| <= |s| && NameOf(s) == s[..|NameOf(s)|] && '=' !in NameOf(s)
    ensures if IsSetting(s) then |NameOf(s)| < |s| && s[|NameOf(s)|] == '=' else NameOf(s) == s
  {
    RunEndStops(s, 0, Until("="));
  }

  lemma PrintedSetting(name: string, value: string)
    requires '=' !in name
    ensures IsSetting(name + "=" + value) && NameOf(name + "=" + value) == name && ValueOf(name + "=" + value) == value
  {
    var t := name + "=" + value;
    assert t[|name|] == '=';
    forall i | 0 <= i < |name| ensures InRun(t[i], Until("=")) { assert t[i] == name[i] && name[i] in name; }
    RunEndUnique(t, 0, Until("="), |name|);
  }

  /** The character that a C string shows at offset `i`: its terminator after the last one. */
  function CharAt(s: string, i: nat): char {
    if i < |s| then s[i] else ZERO
  }

  // ---------------------------------------------------------------- environments as maps

  /** The value of `name`: that of the first setting of it. */
  function Lookup(env: seq<string>, name: string): Option<string> {
    if env == [] then None
    else if IsSetting(env[0]) && NameOf(env[0]) == name then Some(ValueOf(env[0]))
    else Lookup(env[1..], name)
  }

  ghost predicate UniqueNames(env: seq<string>) {
    forall i, j :: 0 <= i < j < |env| ==> NameOf(env[i]) != NameOf(env[j])
  }

  /** The last entry with the name of `setting`, or the number of entries. */
  function FoundAt(env: seq<string>, setting: string): (found: nat)
    ensures found <= |env|
    ensures found < |env| ==> NameOf(env[found]) == NameOf(setting)
    ensures forall i :: (if found < |env| then found + 1 else 0) <= i < |env| ==> NameOf(env[i]) != NameOf(setting)
  {
    if env == [] then 0
    else
      var last := |env| - 1;
      if NameOf(env[last]) == NameOf(setting) then last
      else
        var found := FoundAt(env[..last], setting);
        if found == last then |env| else found
  }

  /** What `env_set` makes of the entries: replaced in its place, or appended. */
  function Updated(env: seq<string>, setting: string): seq<string> {
    var found := FoundAt(env, setting);
    if found < |env| then env[found := setting] else env + [setting]
  }

  lemma UpdatedUnique(env: seq<string>, setting: string)
    requires UniqueNames(env)
    ensures UniqueNames(Updated(env, setting))
  {}

  lemma {:induction false} LookupSkips(env: seq<string>, name: string, k: nat)
    requires k <= |env| && forall i :: 0 <= i < k ==> !(IsSetting(env[i]) && NameOf(env[i]) == name)
    ensures Lookup(env, name) == Lookup(env[k..], name)
    decreases k
  {
    if k > 0 {
      LookupSkips(env[1..], name, k - 1);
      assert env[1..][k - 1..] == env[k..];
    }
  }

  lemma {:induction false} LookupConcat(a: seq<string>, b: seq<string>, name: string)
    ensures Lookup(a + b, name) == if Lookup(a, name).Some? then Lookup(a, name) else Lookup(b, name)
  {
    if a == [] {
      assert a + b == b;
    } else {
      assert (a + b)[1..] == a[1..] + b;
      LookupConcat(a[1..], b, name);
    }
  }

  lemma LookupOne(setting: string, name: string)
    ensures Lookup([setting], name) ==
            if IsSetting(setting) && NameOf(setting) == name then Some(ValueOf(setting)) else None
  {
    assert [setting][1..] == [];
  }

  lemma LookupNone(env: seq<string>, name: string)
    requires forall i :: 0 <= i < |env| ==> NameOf(env[i]) != name
    ensures Lookup(env, name) == None
  {
    LookupSkips(env, name, |env|);
  }

  /** What stands before the place of a setting, and what stands after it. */
  function Before(env: seq<string>, setting: string): seq<string> {
    env[..FoundAt(env, setting)]
  }

  function Behind(env: seq<string>, setting: string): seq<string> {
    if FoundAt(env, setting) < |env| then env[FoundAt(env, setting) + 1..] else []
  }

  lemma UpdatedParts(env: seq<string>, setting: string)
    ensures Updated(env, setting) == Before(env, setting) + ([setting] + Behind(env, setting))
  {
    if FoundAt(env, setting) < |env| {
      ReplacedParts(env, FoundAt(env, setting), setting);
    } else {
      assert Before(env, setting) == env && [setting] + Behind(env, setting) == [setting];
    }
  }

  lemma ReplacedParts(env: seq<string>, k: nat, setting: string)
    requires k < |env|
    ensures env[k := setting] == env[..k] + ([setting] + env[k + 1..])
  {}

  /** Setting a name leaves the value of every other name alone, whatever the environment. */
  lemma UpdatedElsewhere(env: seq<string>, setting: string, name: string)
    requires name != NameOf(setting)
    ensures Lookup(Updated(env, setting), name) == Lookup(env, name)
  {
    var found, before, behind := FoundAt(env, setting), Before(env, setting), Behind(env, setting);
    UpdatedParts(env, setting);
    LookupConcat(before, [setting] + behind, name);
    LookupConcat([setting], behind, name);
    LookupOne(setting, name);
    if found < |env| {
      assert env == before + ([env[found]] + behind);
      LookupConcat(before, [env[found]] + behind, name);
      LookupConcat([env[found]], behind, name);
      LookupOne(env[found], name);
    } else {
      assert env == before;
    }
  }

  /** The new value of a name is what a lookup gives exactly when no setting of the name comes before
      the one that was replaced, or the first that does has the same value. */
  lemma UpdateIsSeen(env: seq<string>, setting: string)
    requires IsSetting(setting)
    ensures var before := Lookup(Before(env, setting), NameOf(setting));
            Lookup(Updated(env, setting), NameOf(setting)) == Some(ValueOf(setting))
            <==> before == None || before == Some(ValueOf(setting))
  {
    UpdatedParts(env, setting);
    LookupConcat(Before(env, setting), [setting] + Behind(env, setting), NameOf(setting));
    LookupConcat([setting], Behind(env, setting), NameOf(setting));
    LookupOne(setting, NameOf(setting));
  }

  /** So with unique names, setting a name is a map update. */
  lemma UpdatedIsMapUpdate(env: seq<string>, setting: string, name: string)
    requires UniqueNames(env) && IsSetting(setting)
    ensures Lookup(Updated(env, setting), name) ==
            if name == NameOf(setting) then Some(ValueOf(setting)) else Lookup(env, name)
  {
    if name == NameOf(setting) {
      LookupNone(Before(env, setting), name);
      UpdateIsSeen(env, setting);
    } else {
      UpdatedElsewhere(env, setting, name);
    }
  }

  /** With a name twice the condition can fail: `env_set` replaces the last entry of the name and
      `env_get` reads the first. */
  lemma DuplicateNamesBreakUpdate()
    ensures var env := ["A=1", "A=2"];
            && !UniqueNames(env)
            && Lookup(Updated(env, "A=3"), "A") == Some("1")
  {
    var env := ["A=1", "A=2"];
    PrintedSetting("A", "1");
    PrintedSetting("A", "2");
    PrintedSetting("A", "3");
    assert "A" + "=" + "1" == "A=1" && "A" + "=" + "2" == "A=2" && "A" + "=" + "3" == "A=3";
    assert NameOf(env[0]) == NameOf(env[1]) == NameOf("A=3") == "A";
    assert Updated(env, "A=3")[0] == "A=1";
  }

  // ---------------------------------------------------------------- the arrays

  /** The slots of a null-terminated array of strings. */
  ghost predicate Terminated(slots: seq<Option<string>>) {
    && slots != [] && slots[|slots| - 1] == None
    && forall i :: 0 <= i < |slots| - 1 ==> slots[i].Some? && CString(slots[i].value)
  }

  function Values(slots: seq<Option<string>>): (env: seq<string>)
    requires Terminated(slots)
    ensures |env| == |slots| - 1
    ensures forall i :: 0 <= i < |env| ==> env[i] == slots[i].value
  {
    seq(|slots| - 1, i requires 0 <= i < |slots| - 1 && slots[i].Some? => slots[i].value)
  }

  ghost predicate IsEnv(envp: array<Option<string>>)
    reads envp
  {
    Terminated(envp[..])
  }

  function Entries(envp: array<Option<string>>): seq<string>
    requires IsEnv(envp)
    reads envp
  {
    Values(envp[..])
  }

  lemma SlotReplaced(slots: seq<Option<string>>, k: nat, setting: string)
    requires Terminated(slots) && k < |slots| - 1 && CString(setting)
    ensures Terminated(slots[k := Some(setting)])
    ensures Values(slots[k := Some(setting)]) == Values(slots)[k := setting]
  {}

  lemma SlotAppended(slots: seq<Option<string>>, setting: string)
    requires Terminated(slots) && CString(setting)
    ensures var now := slots[..|slots| - 1] + [Some(setting), None];
            Terminated(now) && Values(now) == Values(slots) + [setting]
  {}

  /** Compares two strings up to a delimiter: equal parts give 0, and only they do. */
  method StrcmpUntil(left: string, right: string, until: char) returns (diff: int)
    requires CString(left) && CString(right) && until != ZERO
    ensures diff == 0 <==> Prefix(left, until) == Prefix(right, until)
  {
    ghost var l, r := RunEnd(left, 0, Until([until])), RunEnd(right, 0, Until([until]));
    RunEndStops(left, 0, Until([until]));
    RunEndStops(right, 0, Until([until]));
    var i := 0;
    while CharAt(left, i) != ZERO && CharAt(left, i) != until && CharAt(left, i) == CharAt(right, i)
      invariant 0 <= i <= l && i <= r
      invariant left[..i] == right[..i]
      decreases |left| - i
    {
      assert left[i] == right[i] && InRun(left[i], Until([until]));
      i := i + 1;
    }
    if (CharAt(left, i) == ZERO || CharAt(left, i) == until)
       && (CharAt(right, i) == ZERO || CharAt(right, i) == until) {
      diff := 0;
      assert i < |left| ==> !InRun(left[i], Until([until]));
      assert i < |right| ==> !InRun(right[i], Until([until]));
    } else {
      diff := CharAt(left, i) as int - CharAt(right, i) as int;
      PrefixesDiffer(left, right, until, i);
    }
  }

  lemma PrefixesDiffer(left: string, right: string, until: char, i: nat)
    requires CString(left) && CString(right) && until != ZERO
    requires var l, r := RunEnd(left, 0, Until([until])), RunEnd(right, 0, Until([until])); i <= l && i <= r
    requires CharAt(left, i) == ZERO || CharAt(left, i) == until || CharAt(left, i) != CharAt(right, i)
    requires !((CharAt(left, i) == ZERO || CharAt(left, i) == until)
               && (CharAt(right, i) == ZERO || CharAt(right, i) == until))
    ensures Prefix(left, until) != Prefix(right, until)
    ensures CharAt(left, i) != CharAt(right, i)
  {
    var l, r := RunEnd(left, 0, Until([until])), RunEnd(right, 0, Until([until]));
    RunEndStops(left, 0, Until([until]));
    RunEndStops(right, 0, Until([until]));
    assert i < |left| && left[i] != until ==> i < l;
    assert i < |right| && right[i] != until ==> i < r;
    if i < l && i < r {
      assert Prefix(left, until)[i] != Prefix(right, until)[i];
    }
  }

  method EnvInit() returns (envp: array<Option<string>>)
    ensures fresh(envp) && IsEnv(envp) && Entries(envp) == []
  {
    envp := new Option<string>[1] [None];
  }

  /** A copy that shares nothing with its original. */
  method EnvCopy(envp: array<Option<string>>) returns (p: array<Option<string>>)
    requires IsEnv(envp)
    ensures fresh(p) && IsEnv(p) && Entries(p) == Entries(envp)
  {
    var count := 0;
    while envp[count] != None
      invariant 0 <= count < envp.Length
      decreases envp.Length - count
    {
      count := count + 1;
    }
    p := new Option<string>[count + 1] (_ => None);
    var i := 0;
    while i < count
      invariant 0 <= i <= count == envp.Length - 1
      invariant forall j :: 0 <= j < i ==> p[j] == envp[j]
      invariant forall j :: i <= j < p.Length ==> p[j] == None
    {
      p[i] := envp[i];
      i := i + 1;
    }
  }

  /** The counting loop of `env_set`: the number of entries, and the last one of the same name. */
  method FindEntry(envp: array<Option<string>>, envstr: string) returns (count: nat, found: int)
    requires IsEnv(envp) && CString(envstr)
    ensures count == envp.Length - 1 && -1 <= found < count
    ensures FoundAt(Entries(envp), envstr) == if found >= 0 then found else count
  {
    ghost var env := Entries(envp);
    found := -1;
    count := 0;
    while envp[count] != None
      invariant 0 <= count < envp.Length
      invariant -1 <= found < count
      invariant found >= 0 ==> NameOf(env[found]) == NameOf(envstr)
      invariant forall i :: found < i < count ==> NameOf(env[i]) != NameOf(envstr)
      decreases envp.Length - count
    {
      assert env[count] == envp[count].value;
      var diff := StrcmpUntil(envp[count].value, envstr, '=');
      if diff == 0 {
        found := count;
      }
      count := count + 1;
    }
    FoundIs(env, envstr, found);
  }

  /** The array is updated in place when the name is present, and otherwise replaced by a longer
      one, after which the old array is no longer used. */
  method EnvSet(envp: array<Option<string>>, envstr: string) returns (p: array<Option<string>>)
    requires IsEnv(envp) && CString(envstr)
    modifies envp
    ensures p == envp || fresh(p)
    ensures IsEnv(p) && Entries(p) == Updated(old(Entries(envp)), envstr)
  {
    var count, found := FindEntry(envp, envstr);
    count := count + 1;
    var was := envp[..];
    if found != -1 {
      envp[found] := Some(envstr);
      SlotReplaced(was, found, envstr);
      assert envp[..] == was[found := Some(envstr)];
      return envp;
    }
    p := new Option<string>[count + 1] (i => if 0 <= i < |was| then was[i] else None);
    p[count] := p[count - 1];
    p[count - 1] := Some(envstr);
    SlotAppended(was, envstr);
    assert p[..] == was[..count - 1] + [Some(envstr), None];
  }

  lemma FoundIs(env: seq<string>, setting: string, found: int)
    requires -1 <= found < |env|
    requires found >= 0 ==> NameOf(env[found]) == NameOf(setting)
    requires forall i :: found < i < |env| ==> NameOf(env[i]) != NameOf(setting)
    ensures FoundAt(env, setting) == if found >= 0 then found else |env|
  {}

  /** The value of the first setting of `name`. */
  method EnvGet(name: string, envp: array<Option<string>>) returns (value: Option<string>)
    requires IsEnv(envp)
    ensures value == Lookup(Entries(envp), name)
  {
    ghost var env := Entries(envp);
    var i := 0;
    while envp[i] != None
      invariant 0 <= i < envp.Length
      invariant Lookup(env, name) == Lookup(env[i..], name)
      decreases envp.Length - i
    {
      var p := envp[i].value;
      assert env[i] == p;
      EqualsSign(p);
      if IsSetting(p) {
        var q := |NameOf(p)|;
        if q == |name| && p[..|name|] == name {
          return Some(p[q + 1..]);
        }
      }
      assert env[i..][1..] == env[i + 1..];
      i := i + 1;
    }
    return None;
  }

  // ---------------------------------------------------------------- settings in a crontab

  /** `strdtb`: the string without its trailing blanks. */
  function Trimmed(s: string): (t: string)
    ensures t <= s && (t != "" ==> !IsSpace(t[|t| - 1]))
    ensures forall i :: |t| <= i < |s| ==> IsSpace(s[i])
  {
    if s != "" && IsSpace(s[|s| - 1]) then Trimmed(s[..|s| - 1]) else s
  }

  function Unquoted(s: string): string {
    if |s| >= 2 && (s[0] == '\'' || s[0] == '"') && s[|s| - 1] == s[0] then s[1..|s| - 1] else s
  }

  /** What the scan `%[^ =] = %[^\n#]` makes of a line, trimmed and unquoted: NAME=value, or None
      when the line is not a setting. */
  function ParseSetting(line: string): Option<string> {
    var i := RunEnd(line, 0, Until(" ="));
    var j := SpaceEnd(line, i);
    if i == 0 || j == |line| || line[j] != '=' then None
    else
      var k := SpaceEnd(line, j + 1);
      var l := RunEnd(line, k, Until("\n#"));
      if k == l then None else Some(line[..i] + "=" + Unquoted(Trimmed(line[k..l])))
  }

  /** A part of a C string is one. */
  lemma PartIsCString(s: string, from: nat, to: nat)
    requires CString(s) && from <= to <= |s|
    ensures CString(s[from..to])
  {}

  lemma CleanedIsCString(value: string)
    requires CString(value)
    ensures CString(Unquoted(Trimmed(value)))
  {
    PartIsCString(value, 0, |Trimmed(value)|);
  }

  lemma SettingIsCString(name: string, value: string)
    requires CString(name) && CString(value)
    ensures CString(name + "=" + value)
  {}

  lemma SettingShape(line: string)
    requires CString(line)
    ensures var setting := ParseSetting(line);
            setting.Some? ==>
              && CString(setting.value) && IsSetting(setting.value)
              && NameOf(setting.value) == line[..RunEnd(line, 0, Until(" ="))]
  {
    if ParseSetting(line).Some? {
      var i := RunEnd(line, 0, Until(" ="));
      RunEndStops(line, 0, Until(" ="));
      forall n | 0 <= n < i ensures line[n] != '=' {
        assert InRun(line[n], Until(" ="));
      }
      var k := SpaceEnd(line, SpaceEnd(line, i) + 1);
      var l := RunEnd(line, k, Until("\n#"));
      PartIsCString(line, 0, i);
      PartIsCString(line, k, l);
      CleanedIsCString(line[k..l]);
      SettingIsCString(line[..i], Unquoted(Trimmed(line[k..l])));
      PrintedSetting(line[..i], Unquoted(Trimmed(line[k..l])));
    }
  }

  /** A setting printed in the plain form is read back as it is. */
  lemma PlainSettingReads(name: string, value: string)
    requires name != "" && forall c :: c in name ==> c != ' ' && c != '='
    requires value != "" && forall c :: c in value ==> c != '\n' && c != '#'
    requires !IsSpace(value[0]) && !IsSpace(value[|value| - 1]) && value[0] != '\'' && value[0] != '"'
    ensures ParseSetting(name + "=" + value) == Some(name + "=" + value)
  {
    var line := name + "=" + value;
    var i := |name|;
    assert line[i] == '=' && line[..i] == name;
    forall n | 0 <= n < i ensures InRun(line[n], Until(" =")) { assert line[n] == name[n] && name[n] in name; }
    RunEndUnique(line, 0, Until(" ="), i);
    ValueReads(line, i + 1, value);
  }

  lemma ValueReads(line: string, k: nat, value: string)
    requires k + |value| == |line| && line[k..] == value
    requires value != "" && forall c :: c in value ==> c != '\n' && c != '#'
    requires !IsSpace(value[0]) && !IsSpace(value[|value| - 1]) && value[0] != '\'' && value[0] != '"'
    ensures SpaceEnd(line, k) == k && RunEnd(line, k, Until("\n#")) == |line|
    ensures Unquoted(Trimmed(line[k..|line|])) == value
  {
    assert line[k..|line|] == value;
    assert line[k] == value[0];
    forall n | k <= n < |line| ensures InRun(line[n], Until("\n#")) {
      assert line[n] == value[n - k] && value[n - k] in value;
    }
    RunEndUnique(line, k, Until("\n#"), |line|);
  }

  predicate SpaceIn(s: string, from: nat, to: nat)
    requires to <= |s|
  {
    forall n :: from <= n < to ==> IsSpace(s[n])
  }

  /** No character from `from` to `to` ends a value. */
  predicate UnbrokenIn(s: string, from: nat, to: nat)
    requires to <= |s|
  {
    forall n :: from <= n < to ==> s[n] != '\n' && s[n] != '#'
  }

  lemma {:induction false} SpaceRun(s: string, p: nat)
    requires p <= |s|
    ensures SpaceIn(s, p, SpaceEnd(s, p)) && (SpaceEnd(s, p) < |s| ==> !IsSpace(s[SpaceEnd(s, p)]))
    decreases |s| - p
  {
    if p < |s| && IsSpace(s[p]) {
      SpaceRun(s, p + 1);
    }
  }

  lemma {:induction false} TrimmedIs(s: string, k: nat, m: nat, l: nat)
    requires k < m <= l <= |s| && !IsSpace(s[m - 1]) && SpaceIn(s, m, l)
    ensures Trimmed(s[k..l]) == s[k..m]
    decreases l
  {
    assert s[k..l][l - 1 - k] == s[l - 1];
    if m < l {
      assert s[k..l][..l - k - 1] == s[k..l - 1];
      TrimmedIs(s, k, m, l - 1);
    }
  }

  /** The parts of a setting: a name up to `i`, blanks, the equals sign at `j`, blanks, a value from `k` up to `m`,
      blanks up to `l`, and there the end or a comment. Only a space can follow the name. */
  ghost predicate SettingParts(line: string, i: nat, j: nat, k: nat, m: nat, l: nat) {
    && 0 < i <= j < k < m <= l <= |line|
    && (forall n :: 0 <= n < i ==> line[n] != ' ' && line[n] != '=') && line[j] == '=' && (i < j ==> line[i] == ' ')
    && SpaceIn(line, i, j) && SpaceIn(line, j + 1, k) && !IsSpace(line[k])
    && UnbrokenIn(line, k, l) && !IsSpace(line[m - 1]) && SpaceIn(line, m, l)
    && (l == |line| || line[l] == '#' || line[l] == '\n')
  }

  lemma SettingRuns(line: string, i: nat, j: nat, k: nat, m: nat, l: nat)
    requires SettingParts(line, i, j, k, m, l)
    ensures RunEnd(line, 0, Until(" =")) == i && SpaceEnd(line, i) == j
    ensures SpaceEnd(line, j + 1) == k && RunEnd(line, k, Until("\n#")) == l
  {
    RunEndUnique(line, 0, Until(" ="), i);
    SpaceRunUnique(line, i, j);
    SpaceRunUnique(line, j + 1, k);
    RunEndUnique(line, k, Until("\n#"), l);
  }

  lemma UnquotedIs(s: string, k: nat, m: nat)
    requires k < m <= |s|
    ensures Unquoted(s[k..m]) ==
            if m - k >= 2 && s[k] == s[m - 1] && (s[k] == '\'' || s[k] == '"') then s[k + 1..m - 1] else s[k..m]
  {
    var value := s[k..m];
    assert value[0] == s[k] && value[|value| - 1] == s[m - 1];
    if m - k >= 2 {
      InnerPart(s, value, k, m);
    }
  }

  lemma InnerPart(s: string, value: string, k: nat, m: nat)
    requires k + 2 <= m <= |s| && value == s[k..m]
    ensures value[1..m - k - 1] == s[k + 1..m - 1]
  {
    var a, b := value[1..m - k - 1], s[k + 1..m - 1];
    forall n | 0 <= n < |a| ensures a[n] == b[n] {
      assert value[n + 1] == s[k + n + 1];
    }
  }

  /** Blanks round the equals sign and after the value do not matter, and neither does a comment behind it; one pair
      of quotes round the value is taken off. */
  lemma SpacedSettingReads(line: string, i: nat, j: nat, k: nat, m: nat, l: nat)
    requires SettingParts(line, i, j, k, m, l)
    ensures ParseSetting(line) ==
            Some(line[..i] + "=" +
                 if m - k >= 2 && line[k] == line[m - 1] && (line[k] == '\'' || line[k] == '"')
                   then line[k + 1..m - 1] else line[k..m])
  {
    SettingRuns(line, i, j, k, m, l);
    TrimmedIs(line, k, m, l);
    UnquotedIs(line, k, m);
    ParseIs(line, i, j, k, l, Unquoted(line[k..m]));
  }

  lemma ParseIs(line: string, i: nat, j: nat, k: nat, l: nat, value: string)
    requires 0 < i <= j < k < l <= |line| && line[j] == '='
    requires RunEnd(line, 0, Until(" =")) == i && SpaceEnd(line, i) == j
    requires SpaceEnd(line, j + 1) == k && RunEnd(line, k, Until("\n#")) == l
    requires Unquoted(Trimmed(line[k..l])) == value
    ensures ParseSetting(line) == Some(line[..i] + "=" + value)
  {}

  lemma NameRun(line: string, i: nat)
    requires i == RunEnd(line, 0, Until(" ="))
    ensures forall n :: 0 <= n < i ==> line[n] != ' ' && line[n] != '='
    ensures i == |line| || line[i] == ' ' || line[i] == '='
  {
    RunEndStops(line, 0, Until(" ="));
    forall n | 0 <= n < i ensures line[n] != ' ' && line[n] != '=' {
      assert InRun(line[n], Until(" ="));
    }
  }

  lemma ValueRun(line: string, k: nat, l: nat)
    requires k <= |line| && l == RunEnd(line, k, Until("\n#"))
    ensures UnbrokenIn(line, k, l) && (l == |line| || line[l] == '#' || line[l] == '\n')
  {
    RunEndStops(line, k, Until("\n#"));
    forall n | k <= n < l ensures line[n] != '\n' && line[n] != '#' {
      assert InRun(line[n], Until("\n#"));
    }
  }

  lemma TrimmedRun(line: string, k: nat, l: nat, m: nat)
    requires k < l <= |line| && !IsSpace(line[k]) && m == k + |Trimmed(line[k..l])|
    ensures k < m <= l && !IsSpace(line[m - 1]) && SpaceIn(line, m, l)
  {
    var run := line[k..l];
    assert !IsSpace(run[0]);
    forall n | m <= n < l ensures IsSpace(line[n]) {
      assert line[n] == run[n - k];
    }
    assert line[m - 1] == run[m - k - 1];
  }

  /** And every line that is taken for a setting has these parts. */
  lemma SettingHasParts(line: string) returns (i: nat, j: nat, k: nat, m: nat, l: nat)
    requires ParseSetting(line).Some?
    ensures SettingParts(line, i, j, k, m, l)
  {
    i := RunEnd(line, 0, Until(" ="));
    NameRun(line, i);
    j := SpaceEnd(line, i);
    SpaceRun(line, i);
    k := SpaceEnd(line, j + 1);
    SpaceRun(line, j + 1);
    l := RunEnd(line, k, Until("\n#"));
    ValueRun(line, k, l);
    m := k + |Trimmed(line[k..l])|;
    TrimmedRun(line, k, l, m);
  }

  /** A quoted value keeps its own blanks. */
  lemma QuotedSettingReads(name: string, value: string, quote: char)
    requires name != "" && forall c :: c in name ==> c != ' ' && c != '='
    requires (forall c :: c in value ==> c != '\n' && c != '#') && (quote == '\'' || quote == '"')
    ensures ParseSetting(name + " = " + [quote] + value + [quote]) == Some(name + "=" + value)
  {
    var line := name + " = " + [quote] + value + [quote];
    var i, k, m := |name|, |name| + 3, |name| + 5 + |value|;
    assert line[i] == ' ' && line[i + 1] == '=' && line[i + 2] == ' ' && line[k] == quote && line[m - 1] == quote;
    assert line[..i] == name && line[k + 1..m - 1] == value;
    forall n | 0 <= n < i ensures line[n] != ' ' && line[n] != '=' {
      assert line[n] == name[n] && name[n] in name;
    }
    forall n | k <= n < m ensures line[n] != '\n' && line[n] != '#' {
      assert k < n < m - 1 ==> line[n] == value[n - k - 1] && value[n - k - 1] in value;
    }
    SpacedSettingReads(line, i, i + 1, k, m, m);
  }

  datatype EnvLine = EndOfFile | NotSetting | Setting(envstr: string)

  const MAX_ENVSTR := 1000

  /** The next line that is neither blank nor a comment, cut to what the buffer holds; None when the
      file ends before that line does. */
  function NextLine(s: string, p: nat): Option<string>
    requires p <= |s|
  {
    var start := CommentsEnd(s, p);
    var end := StringEnd(s, start, "\n");
    if end == |s| then None else Some(Truncated(s[start..end], MAX_ENVSTR - 1))
  }

  /** The terminator of that line. */
  function LineEnd(s: string, p: nat): (end: nat)
    requires p <= |s|
    ensures p <= end <= |s|
  {
    StringEnd(s, CommentsEnd(s, p), "\n")
  }

  lemma NextLineIsCString(s: string, p: nat)
    requires p <= |s| && NextLine(s, p).Some?
    ensures CString(NextLine(s, p).value)
  {
    var start := CommentsEnd(s, p);
    var end := StringEnd(s, start, "\n");
    RunEndStops(s, start, Until("\n" + [ZERO]));
    assert forall i :: start <= i < end ==> InRun(s[i], Until("\n" + [ZERO]));
  }

  /** What `load_env` answers at `pos`, and where it leaves the reader. */
  ghost predicate Status(s: string, pos: nat, status: EnvLine, reader: nat)
    requires pos <= |s|
  {
    match NextLine(s, pos)
    case None => status == EndOfFile
    case Some(line) =>
      (match ParseSetting(line)
       case None => status == NotSetting && reader == pos
       case Some(setting) => status == Setting(setting) && reader == LineEnd(s, pos) + 1)
  }

  /** Reads a line as a setting; a line that is none is left unread, comments included. */
  method LoadEnv(f: CrontabFile) returns (status: EnvLine)
    requires f.Valid()
    modifies f
    ensures f.Valid()
    ensures Status(f.text, old(f.pos), status, f.pos)
  {
    var filepos := f.pos;
    f.SkipComments();
    var line, ch := f.GetString(MAX_ENVSTR, "\n");
    if ch == Eof {
      return EndOfFile;
    }
    match ParseSetting(line)
    case None =>
      f.pos := filepos;
      return NotSetting;
    case Some(setting) =>
      return Setting(setting);
  }
}
