/** One background daemon across launches of the app: what launchd has loaded and running, the
    bundle on disk, and the marker file with the version last applied. */
module Launch {
  import opened Wrappers
  import opened Text

  type Version = string

  // ---- launchctl ----

  /** What one invocation answers: an I/O error or timeout, or an exit code and standard error. */
  datatype Reply = Failed | Exited(code: int, stderr: string)

  predicate IsAlreadySignal(r: Reply) {
    r.Exited? && (r.code == 5 || Contains(Lower(r.stderr), "already"))
  }

  predicate IsAlreadyRunning(r: Reply) {
    && r.Exited?
    && (Contains(Lower(r.stderr), "already running") || Contains(Lower(r.stderr), "service is already running"))
  }

  predicate BootstrapOk(r: Reply) { r.Exited? && (r.code == 0 || IsAlreadySignal(r)) }

  predicate KickstartOk(r: Reply) { r.Exited? && (r.code == 0 || IsAlreadyRunning(r)) }

  /** An answer, and whether launchd carried the request out. */
  datatype Call = Call(reply: Reply, took: bool)

  lemma RunningIsAlready(r: Reply)
    requires IsAlreadyRunning(r)
    ensures IsAlreadySignal(r)
  {
    if Contains(Lower(r.stderr), "already running") {
      ContainsPart(Lower(r.stderr), "already running", "", "already", " running");
    } else {
      ContainsPart(Lower(r.stderr), "service is already running", "service is ", "already", " running");
    }
  }

  lemma {:induction false} ContainsPart(s: string, whole: string, a: string, part: string, b: string)
    requires whole == a + part + b && Contains(s, whole)
    ensures Contains(s, part)
  {
    if whole <= s {
      assert s == a + (part + (b + s[|whole|..]));
      ContainsAfter(a, part + (b + s[|whole|..]), part);
    } else {
      ContainsPart(s[1..], whole, a, part, b);
    }
  }

  lemma {:induction false} ContainsAfter(a: string, s: string, part: string)
    requires part <= s
    ensures Contains(a + s, part)
  {
    if a == "" {
      assert a + s == s;
    } else {
      assert (a + s)[1..] == a[1..] + s;
      ContainsAfter(a[1..], s, part);
    }
  }

  /** These words, in any mixture of cases, stand from the i-th character on. */
  predicate SaysAt(text: string, words: string, i: nat) {
    && i + |words| <= |text|
    && forall k :: 0 <= k < |words| ==> SameLetter(text[i + k], words[k])
  }

  predicate SameLetter(c: char, lower: char) {
    c == lower || ('A' <= c <= 'Z' && c as int + 32 == lower as int)
  }

  ghost predicate Says(text: string, words: string) { exists i :: SaysAt(text, words, i) }

  predicate NoCapitals(words: string) { forall c :: c in words ==> !('A' <= c <= 'Z') }

  lemma LowerStarts(text: string, words: string)
    requires NoCapitals(words)
    ensures words <= Lower(text) <==> SaysAt(text, words, 0)
  {
    if SaysAt(text, words, 0) {
      forall k | 0 <= k < |words| ensures Lower(text)[k] == words[k] {
        assert SameLetter(text[0 + k], words[k]) && words[k] in words;
      }
    }
    if words <= Lower(text) {
      assert forall k :: 0 <= k < |words| ==> words[k] in words && words[k] == Lower(text)[k];
    }
  }

  lemma SaysLater(text: string, words: string, i: nat)
    requires text != ""
    ensures SaysAt(text, words, i + 1) <==> SaysAt(text[1..], words, i)
  {
    if SaysAt(text[1..], words, i) {
      forall k | 0 <= k < |words| ensures SameLetter(text[i + 1 + k], words[k]) {
        assert SameLetter(text[1..][i + k], words[k]);
      }
    }
    if SaysAt(text, words, i + 1) {
      forall k | 0 <= k < |words| ensures SameLetter(text[1..][i + k], words[k]) {
        assert SameLetter(text[i + 1 + k], words[k]);
      }
    }
  }

  lemma {:induction false} ContainsIsSays(text: string, words: string)
    requires NoCapitals(words)
    ensures Contains(Lower(text), words) <==> Says(text, words)
  {
    LowerStarts(text, words);
    if text != "" {
      assert Lower(text)[1..] == Lower(text[1..]);
      ContainsIsSays(text[1..], words);
      if i: nat :| SaysAt(text[1..], words, i) { SaysLater(text, words, i); }
      if i: nat :| SaysAt(text, words, i) && i > 0 { SaysLater(text, words, i - 1); }
    }
  }

  lemma RunningSaysSo(r: Reply)
    requires r.Exited?
    ensures IsAlreadyRunning(r) <==> Says(r.stderr, "already running")
  {
    ContainsIsSays(r.stderr, "already running");
    if Contains(Lower(r.stderr), "service is already running") {
      ContainsPart(Lower(r.stderr), "service is already running", "service is ", "already running", "");
    }
  }

  /** What is taken for success: exit code 0; for a bootstrap also 5, or a complaint that says "already";
      for a kickstart one that says "already running". */
  lemma AnswersAre(r: Reply)
    ensures BootstrapOk(r) <==> r.Exited? && (r.code == 0 || r.code == 5 || Says(r.stderr, "already"))
    ensures KickstartOk(r) <==> r.Exited? && (r.code == 0 || Says(r.stderr, "already running"))
  {
    if r.Exited? {
      ContainsIsSays(r.stderr, "already");
      RunningSaysSo(r);
    }
  }

  // ---- The marker ----

  /** The White_Space characters of the Unicode Standard. */
  predicate IsSpace(c: char) {
    || 0x9 <= c as int <= 0xD || c as int in {0x20, 0x85, 0xA0, 0x1680, 0x2028, 0x2029, 0x202F, 0x205F, 0x3000}
    || 0x2000 <= c as int <= 0x200A
  }

  predicate Blank(s: string) { forall c :: c in s ==> IsSpace(c) }

  function TrimStart(s: string): string {
    if s != "" && IsSpace(s[0]) then TrimStart(s[1..]) else s
  }

  function TrimEnd(s: string): string {
    if s != "" && IsSpace(Last(s)) then TrimEnd(s[..|s| - 1]) else s
  }

  function Trim(s: string): string { TrimEnd(TrimStart(s)) }

  lemma {:induction false} TrimStartIs(s: string)
    ensures exists a :: Blank(a) && s == a + TrimStart(s)
    ensures TrimStart(s) != "" ==> !IsSpace(TrimStart(s)[0])
  {
    if s != "" && IsSpace(s[0]) {
      TrimStartIs(s[1..]);
      var a :| Blank(a) && s[1..] == a + TrimStart(s[1..]);
      assert s == ([s[0]] + a) + TrimStart(s) && Blank([s[0]] + a);
    } else {
      assert s == "" + TrimStart(s);
    }
  }

  lemma {:induction false} TrimEndIs(s: string)
    ensures exists b :: Blank(b) && s == TrimEnd(s) + b
    ensures TrimEnd(s) != "" ==> !IsSpace(Last(TrimEnd(s)))
  {
    if s != "" && IsSpace(Last(s)) {
      TrimEndIs(s[..|s| - 1]);
      var b :| Blank(b) && s[..|s| - 1] == TrimEnd(s[..|s| - 1]) + b;
      assert s == TrimEnd(s) + (b + [Last(s)]) && Blank(b + [Last(s)]);
    } else {
      assert s == TrimEnd(s) + "";
    }
  }

  /** Trimming takes off white space at both ends and nothing else, and leaves none there. */
  lemma TrimIs(s: string)
    ensures exists a, b :: Blank(a) && Blank(b) && s == a + Trim(s) + b
    ensures Trim(s) != "" ==> !IsSpace(Trim(s)[0]) && !IsSpace(Last(Trim(s)))
  {
    TrimStartIs(s);
    var t := TrimStart(s);
    TrimEndIs(t);
    var a :| Blank(a) && s == a + t;
    var b :| Blank(b) && t == Trim(s) + b;
    assert s == a + Trim(s) + b;
    assert Trim(s) != "" ==> Trim(s)[0] == t[0];
  }

  // ---- One launch ----

  datatype Machine = Machine(loaded: bool, running: Option<Version>, marker: Option<string>, bundle: Version)

  /** What the world answers during one launch. */
  datatype Env = Env(installOk: bool, boot: Call, kick: Call, force: Call, dataDir: bool, writeOk: bool)

  predicate Current(m: Machine) { m.marker.Some? && Trim(m.marker.value) == m.bundle }

  function Bootstrapped(m: Machine, c: Call): Machine { m.(loaded := m.loaded || c.took) }

  /** Only a loaded service can be started; without `-k` a running daemon is left alone. */
  function Kickstarted(m: Machine, c: Call): Machine {
    if c.took && m.loaded && m.running.None? then m.(running := Some(m.bundle)) else m
  }

  function KickstartedForce(m: Machine, c: Call): Machine {
    if c.took && m.loaded then m.(running := Some(m.bundle)) else m
  }

  function Ensured(m: Machine, env: Env): Machine {
    if !env.installOk then m
    else if !BootstrapOk(env.boot.reply) then Bootstrapped(m, env.boot)
    else Kickstarted(Bootstrapped(m, env.boot), env.kick)
  }

  predicate EnsureOk(env: Env) {
    env.installOk && BootstrapOk(env.boot.reply) && KickstartOk(env.kick.reply)
  }

  function Marked(m: Machine, writeOk: bool): Machine {
    if writeOk then m.(marker := Some(m.bundle)) else m
  }

  function Reconciled(m: Machine, env: Env): Machine {
    if Current(m) then m
    else if m.marker.None? then Marked(m, env.writeOk)
    else if KickstartOk(env.force.reply) then Marked(KickstartedForce(m, env.force), env.writeOk)
    else KickstartedForce(m, env.force)
  }

  function Launched(m: Machine, env: Env): Machine {
    if EnsureOk(env) && env.dataDir then Reconciled(Ensured(m, env), env) else Ensured(m, env)
  }

  /** Whether this launch issues `kickstart -k`, and whether that reports success. */
  predicate Forces(m: Machine, env: Env) {
    EnsureOk(env) && env.dataDir && m.marker.Some? && !Current(m)
  }

  class DaemonHost {
    var loaded: bool
    var running: Option<Version>
    var marker: Option<string>
    var bundle: Version

    ghost function MachineOf(): Machine
      reads this
    {
      Machine(loaded, running, marker, bundle)
    }

    constructor (current: Version)
      ensures MachineOf() == Machine(false, None, None, current)
    {
      loaded, running, marker, bundle := false, None, None, current;
    }

    method Bootstrap(c: Call) returns (ok: bool)
      modifies this
      ensures MachineOf() == Bootstrapped(old(MachineOf()), c) && ok == BootstrapOk(c.reply)
    {
      loaded := loaded || c.took;
      if c.reply.Failed? {
        return false;
      }
      ok := c.reply.code == 0 || IsAlreadySignal(c.reply);
    }

    method Kickstart(c: Call) returns (ok: bool)
      modifies this
      ensures MachineOf() == Kickstarted(old(MachineOf()), c) && ok == KickstartOk(c.reply)
    {
      if c.took && loaded && running.None? {
        running := Some(bundle);
      }
      ok := c.reply.Exited? && (c.reply.code == 0 || IsAlreadyRunning(c.reply));
    }

    method KickstartForce(c: Call) returns (ok: bool)
      modifies this
      ensures MachineOf() == KickstartedForce(old(MachineOf()), c) && ok == KickstartOk(c.reply)
    {
      if c.took && loaded {
        running := Some(bundle);
      }
      ok := c.reply.Exited? && (c.reply.code == 0 || IsAlreadyRunning(c.reply));
    }

    method EnsureDaemonRunning(env: Env) returns (ok: bool)
      modifies this
      ensures MachineOf() == Ensured(old(MachineOf()), env) && ok == EnsureOk(env)
    {
      if !env.installOk {
        return false;
      }
      ok := Bootstrap(env.boot);
      if !ok {
        return false;
      }
      ok := Kickstart(env.kick);
    }

    method ReconcileDaemonVersion(env: Env)
      modifies this
      ensures MachineOf() == Reconciled(old(MachineOf()), env)
    {
      match marker {
        case Some(text) =>
          if Trim(text) == bundle {
            return;
          }
          var ok := KickstartForce(env.force);
          if ok && env.writeOk {
            marker := Some(bundle);
          }
        case None =>
          if env.writeOk {
            marker := Some(bundle);
          }
      }
    }

    method BringUp(env: Env)
      modifies this
      ensures MachineOf() == Launched(old(MachineOf()), env)
    {
      var ok := EnsureDaemonRunning(env);
      if !ok {
        return;
      }
      if env.dataDir {
        ReconcileDaemonVersion(env);
      }
    }
  }

  // ---- What one launch guarantees ----

  /** A successful bootstrap leaves the service loaded, and a successful plain kickstart leaves some daemon
      running. Of `-k` nothing is assumed: its success may be an "already running" answer to a restart
      that did not happen. */
  predicate Honest(m: Machine, env: Env) {
    && (BootstrapOk(env.boot.reply) ==> env.boot.took || m.loaded)
    && (KickstartOk(env.kick.reply) ==> env.kick.took || m.running.Some?)
  }

  /** A launch starts a daemon where none runs. */
  predicate StartsOne(m: Machine, env: Env) {
    && env.installOk && BootstrapOk(env.boot.reply) && env.kick.took
    && (m.loaded || env.boot.took) && m.running.None?
  }

  /** It gets through the start, and has a place for the marker. */
  predicate GetsThrough(env: Env) {
    env.installOk && BootstrapOk(env.boot.reply) && KickstartOk(env.kick.reply) && env.dataDir
  }

  /** It puts the bundle's daemon in the place of whichever runs. */
  predicate ReplacesOne(m: Machine, env: Env) {
    && GetsThrough(env) && m.marker.Some? && Trim(m.marker.value) != m.bundle && env.force.took
    && (m.loaded || env.boot.took)
  }

  /** It writes the marker: where there is none, or where a forced restart of another version is reported
      as done. */
  predicate WritesMarker(m: Machine, env: Env) {
    && GetsThrough(env) && env.writeOk
    && (m.marker.None? || (Trim(m.marker.value) != m.bundle && KickstartOk(env.force.reply)))
  }

  /** All a launch does. */
  lemma LaunchIs(m: Machine, env: Env)
    ensures Launched(m, env) == Machine(m.loaded || (env.installOk && env.boot.took),
                                        if StartsOne(m, env) || ReplacesOne(m, env) then Some(m.bundle) else m.running,
                                        if WritesMarker(m, env) then Some(m.bundle) else m.marker, m.bundle)
  {
  }

  /** Unless the marker names another version, a launch never touches a running daemon, whatever
      launchctl answers; and it never kills one without starting another. */
  lemma UnchangedVersionNeverKills(m: Machine, env: Env)
    ensures m.running.Some? && !Forces(m, env) ==> Launched(m, env).running == m.running
    ensures m.running.Some? ==> Launched(m, env).running in {m.running, Some(m.bundle)}
  {
  }

  /** When a completed launch ends with the current daemon: exactly when the one it found was current
      or absent, or the marker was stale and the forced restart happened. */
  lemma LaunchEndsCurrent(m: Machine, env: Env)
    requires EnsureOk(env) && env.dataDir && Honest(m, env)
    ensures Launched(m, env).running == Some(m.bundle) <==>
              m.running.None? || m.running == Some(m.bundle) || (Forces(m, env) && env.force.took)
  {
  }
}
