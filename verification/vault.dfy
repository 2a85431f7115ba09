/** What the key manager promises, with no cryptography in sight: one data key, opened by the latest secrets. */
module Vault {
  import opened Common

  newtype byte = x: int | 0 <= x < 256

  type Key = seq<byte>

  /** The data key and the two secrets that currently open it. */
  datatype Secrets = Secrets(key: Key, password: string, mnemonic: Option<string>)

  /** stored survives restarts; the rest lives in memory. */
  datatype State = State(stored: Option<Secrets>, inited: bool, open: Option<Key>)

  /** What the machine grants a call: file reads, file writes, random bytes. */
  datatype Env = Env(readable: bool, writable: bool, entropy: bool)

  datatype Op =
    | Setup(password: string, key: Key)
    | Unlock(password: string)
    | Lock
    | Rewrap(oldPassword: string, newPassword: string)
    | RewrapUnlocked(newPassword: string)
    | GenerateRecovery(force: bool, words: seq<string>)
    | GenerateRecoveryWithPassword(password: string, force: bool, words: seq<string>)
    | UnlockWithRecovery(words: seq<string>)
    | Restart(statOk: bool)

  const INITIAL := State(None, false, None)

  /** Words separated by single spaces. */
  function Join(words: seq<string>): string {
    if words == [] then ""
    else if |words| == 1 then words[0]
    else words[0] + " " + Join(words[1..])
  }

  predicate MayRotate(v: State, force: bool) {
    v.stored.Some? && (v.stored.value.mnemonic.None? || force)
  }

  predicate Succeeds(v: State, op: Op, env: Env) {
    match op
    case Setup(pw, _) => pw != "" && !v.inited && env.entropy && env.writable
    case Unlock(pw) => pw != "" && v.inited && env.readable && v.stored.Some? && v.stored.value.password == pw
    case Lock => true
    case Rewrap(before, after) =>
      before != "" && after != "" && v.inited && env.readable && v.stored.Some? && v.stored.value.password == before
      && env.entropy && env.writable
    case RewrapUnlocked(after) =>
      after != "" && v.inited && v.open.Some? && env.readable && env.entropy && env.writable
    case GenerateRecovery(force, _) =>
      v.inited && env.readable && MayRotate(v, force) && v.open.Some? && env.entropy && env.writable
    case GenerateRecoveryWithPassword(pw, force, _) =>
      pw != "" && v.inited && env.readable && MayRotate(v, force) && v.stored.value.password == pw && env.entropy && env.writable
    case UnlockWithRecovery(words) =>
      words != [] && v.inited && env.readable && v.stored.Some? && v.stored.value.mnemonic == Some(Join(words))
    case Restart(_) => true
  }

  function WithPassword(v: State, pw: string): State {
    match v.stored
    case None => v
    case Some(s) => v.(stored := Some(s.(password := pw)))
  }

  function WithMnemonic(v: State, words: seq<string>): State {
    match v.stored
    case None => v
    case Some(s) => v.(stored := Some(s.(mnemonic := Some(Join(words)))))
  }

  function Opened(v: State): State {
    match v.stored
    case None => v
    case Some(s) => v.(open := Some(s.key))
  }

  function Step(v: State, op: Op, env: Env): State {
    if !Succeeds(v, op, env) then v
    else
      match op
      case Setup(pw, key) => State(Some(Secrets(key, pw, None)), true, None)
      case Unlock(_) => Opened(v)
      case Lock => v.(open := None)
      case Rewrap(_, after) => WithPassword(v, after)
      case RewrapUnlocked(after) => WithPassword(v, after)
      case GenerateRecovery(_, words) => WithMnemonic(v, words)
      case GenerateRecoveryWithPassword(_, _, words) => WithMnemonic(v, words)
      case UnlockWithRecovery(_) => Opened(v)
      case Restart(statOk) => State(v.stored, statOk && v.stored.Some?, None)
  }

  // ---------------------------------------------------------------- whole runs

  datatype Call = Call(op: Op, env: Env)

  function Run(calls: seq<Call>): State {
    if calls == [] then INITIAL
    else
      var last := calls[|calls| - 1];
      Step(Run(calls[..|calls| - 1]), last.op, last.env)
  }

  /** Every restart could tell whether the key file exists. */
  predicate StatReliable(calls: seq<Call>) {
    forall i :: 0 <= i < |calls| && calls[i].op.Restart? ==> calls[i].op.statOk
  }

  /** The i-th call succeeded. */
  predicate Succeeded(calls: seq<Call>, i: nat)
    requires i < |calls|
  {
    Succeeds(Run(calls[..i]), calls[i].op, calls[i].env)
  }

  ghost predicate Consistent(v: State) {
    && (v.inited ==> v.stored.Some?)
    && (v.open.Some? ==> v.inited && v.open.value == v.stored.value.key)
  }

  lemma {:induction false} EveryRunIsConsistent(calls: seq<Call>)
    ensures Consistent(Run(calls))
    ensures StatReliable(calls) && Run(calls).stored.Some? ==> Run(calls).inited
  {
    if calls != [] {
      var before := calls[..|calls| - 1];
      EveryRunIsConsistent(before);
      assert StatReliable(calls) ==> StatReliable(before);
    }
  }

  /** The data key made at setup is the data key for ever: stored, and in memory whenever anything is. */
  lemma {:induction false} KeyIsForever(before: seq<Call>, after: seq<Call>)
    requires StatReliable(before + after) && Run(before).stored.Some?
    ensures
      var v, w := Run(before), Run(before + after);
      && w.stored.Some? && w.stored.value.key == v.stored.value.key
      && (w.open.Some? ==> w.open.value == v.stored.value.key)
  {
    EveryRunIsConsistent(before + after);
    if after == [] {
      assert before + after == before;
    } else {
      var last := |after| - 1;
      var sofar := before + after[..last];
      assert (before + after)[..|before| + last] == sofar && (before + after)[|before| + last] == after[last];
      assert forall i :: 0 <= i < |sofar| ==> sofar[i] == (before + after)[i];
      KeyIsForever(before, after[..last]);
      EveryRunIsConsistent(sofar);
    }
  }

  /** Without that assumption it is not: a restart that cannot stat the file lets setup replace the key. */
  lemma StatFailureLosesTheKey(pw: string, k1: Key, k2: Key)
    requires pw != "" && k1 != k2
    ensures
      var fine := Env(true, true, true);
      var first, lost, second := Call(Setup(pw, k1), fine), Call(Restart(false), fine), Call(Setup(pw, k2), fine);
      && Run([first]).stored == Some(Secrets(k1, pw, None))
      && Run([first, lost, second]).stored == Some(Secrets(k2, pw, None))
  {
  }

  /** A step replaces the stored key exactly when it is a setup granted while a key exists unseen. */
  lemma KeyReplacedIff(v: State, op: Op, env: Env)
    requires Consistent(v) && v.stored.Some?
    ensures Step(v, op, env).stored.Some?
    ensures Step(v, op, env).stored.value.key != v.stored.value.key
            <==> op.Setup? && op.key != v.stored.value.key && op.password != "" && !v.inited && env.entropy && env.writable
  {
  }

  /** The password of the last setup or rewrap that succeeded. */
  function LatestPassword(calls: seq<Call>): Option<string> {
    if calls == [] then None
    else
      var last := |calls| - 1;
      var op := calls[last].op;
      if Succeeded(calls, last) && (op.Setup? || op.Rewrap? || op.RewrapUnlocked?)
      then Some(if op.Setup? then op.password else op.newPassword)
      else LatestPassword(calls[..last])
  }

  /** The words of the last recovery key generated since the last setup. */
  function LatestWords(calls: seq<Call>): Option<seq<string>> {
    if calls == [] then None
    else
      var last := |calls| - 1;
      var op := calls[last].op;
      if Succeeded(calls, last) && op.Setup? then None
      else if Succeeded(calls, last) && (op.GenerateRecovery? || op.GenerateRecoveryWithPassword?) then Some(op.words)
      else LatestWords(calls[..last])
  }

  lemma {:induction false} StoredSecretsAreTheLatest(calls: seq<Call>)
    ensures
      match Run(calls).stored
      case None => LatestPassword(calls).None? && LatestWords(calls).None?
      case Some(s) =>
        && LatestPassword(calls) == Some(s.password)
        && s.mnemonic == match LatestWords(calls) case None => None case Some(ws) => Some(Join(ws))
  {
    if calls != [] {
      EveryRunIsConsistent(calls[..|calls| - 1]);
      StoredSecretsAreTheLatest(calls[..|calls| - 1]);
    }
  }

  /** The process knows of the key file: it wrote it, or could stat it when it started. */
  predicate KnowsKey(calls: seq<Call>) {
    if calls == [] then false
    else
      var last := |calls| - 1;
      var op := calls[last].op;
      if op.Setup? && Succeeded(calls, last) then true
      else if op.Restart? then op.statOk && LatestPassword(calls[..last]).Some?
      else KnowsKey(calls[..last])
  }

  /** The vault was opened since the last setup, lock or restart. */
  predicate IsOpen(calls: seq<Call>) {
    if calls == [] then false
    else
      var last := |calls| - 1;
      var op := calls[last].op;
      if op.Lock? || op.Restart? || (op.Setup? && Succeeded(calls, last)) then false
      else if (op.Unlock? || op.UnlockWithRecovery?) && Succeeded(calls, last) then true
      else IsOpen(calls[..last])
  }

  /** What a process knows and holds follows from its calls. */
  lemma {:induction false} HistoryTells(calls: seq<Call>)
    ensures Run(calls).inited == KnowsKey(calls) && Run(calls).open.Some? == IsOpen(calls)
    ensures KnowsKey(calls) ==> LatestPassword(calls).Some?
    ensures StatReliable(calls) && LatestPassword(calls).Some? ==> KnowsKey(calls)
  {
    EveryRunIsConsistent(calls);
    StoredSecretsAreTheLatest(calls);
    if calls != [] {
      var before := calls[..|calls| - 1];
      HistoryTells(before);
      EveryRunIsConsistent(before);
      StoredSecretsAreTheLatest(before);
    }
  }

  /** After any run, a password opens the vault exactly when it is the latest one and the process knows of the key file. */
  lemma UnlockExactly(calls: seq<Call>, pw: string, env: Env)
    ensures Succeeds(Run(calls), Unlock(pw), env) <==>
            env.readable && pw != "" && KnowsKey(calls) && LatestPassword(calls) == Some(pw)
  {
    HistoryTells(calls);
    StoredSecretsAreTheLatest(calls);
  }

  /** After any run, recovery words open it exactly when they join to the latest mnemonic. */
  lemma RecoveryUnlockExactly(calls: seq<Call>, words: seq<string>, env: Env)
    ensures Succeeds(Run(calls), UnlockWithRecovery(words), env) <==>
            (&& env.readable && words != [] && KnowsKey(calls)
             && LatestWords(calls).Some? && Join(words) == Join(LatestWords(calls).value))
  {
    HistoryTells(calls);
    StoredSecretsAreTheLatest(calls);
  }

  /** After any run, setup succeeds exactly in a process that knows of no key. */
  lemma SetupExactly(calls: seq<Call>, pw: string, key: Key, env: Env)
    ensures Succeeds(Run(calls), Setup(pw, key), env) <==> pw != "" && env.entropy && env.writable && !KnowsKey(calls)
  {
    HistoryTells(calls);
  }

  /** After any run, the password is changed exactly with the latest one, or in an open vault. */
  lemma RewrapExactly(calls: seq<Call>, before: string, after: string, env: Env)
    ensures Succeeds(Run(calls), Rewrap(before, after), env) <==>
            (&& env.readable && env.writable && env.entropy && before != "" && after != ""
             && KnowsKey(calls) && LatestPassword(calls) == Some(before))
    ensures Succeeds(Run(calls), RewrapUnlocked(after), env) <==>
            env.readable && env.writable && env.entropy && after != "" && IsOpen(calls)
  {
    HistoryTells(calls);
    EveryRunIsConsistent(calls);
    StoredSecretsAreTheLatest(calls);
  }

  /** After any run, a recovery key is generated exactly in an open vault, or with the latest password, and replaces an
      existing one only if forced. */
  lemma RecoveryGenerationExactly(calls: seq<Call>, pw: string, force: bool, words: seq<string>, env: Env)
    ensures Succeeds(Run(calls), GenerateRecovery(force, words), env) <==>
            env.readable && env.writable && env.entropy && IsOpen(calls) && (LatestWords(calls).None? || force)
    ensures Succeeds(Run(calls), GenerateRecoveryWithPassword(pw, force, words), env) <==>
            (&& env.readable && env.writable && env.entropy && pw != ""
             && KnowsKey(calls) && LatestPassword(calls) == Some(pw) && (LatestWords(calls).None? || force))
  {
    HistoryTells(calls);
    EveryRunIsConsistent(calls);
    StoredSecretsAreTheLatest(calls);
  }

  /** Changing the password leaves the recovery words working, and the other way round. */
  lemma SecretsAreIndependent(calls: seq<Call>, call: Call, pw: string, words: seq<string>, env: Env)
    requires call.op.Rewrap? || call.op.RewrapUnlocked? || call.op.GenerateRecovery? || call.op.GenerateRecoveryWithPassword?
    ensures
      var v, w := Run(calls), Run(calls + [call]);
      && (call.op.Rewrap? || call.op.RewrapUnlocked? ==>
            (Succeeds(w, UnlockWithRecovery(words), env) <==> Succeeds(v, UnlockWithRecovery(words), env)))
      && (call.op.GenerateRecovery? || call.op.GenerateRecoveryWithPassword? ==>
            (Succeeds(w, Unlock(pw), env) <==> Succeeds(v, Unlock(pw), env)))
  {
  }

  // ---------------------------------------------------------------- words

  predicate SpaceFree(w: string) {
    forall i :: 0 <= i < |w| ==> w[i] != ' '
  }

  function FirstSpace(s: string): (n: nat)
    ensures n <= |s|
  {
    if s == "" || s[0] == ' ' then 0 else 1 + FirstSpace(s[1..])
  }

  lemma {:induction false} FirstSpaceAfter(w: string, rest: string)
    requires SpaceFree(w) && (rest == "" || rest[0] == ' ')
    ensures FirstSpace(w + rest) == |w|
  {
    if w == "" {
      assert w + rest == rest;
    } else {
      assert (w + rest)[1..] == w[1..] + rest;
      FirstSpaceAfter(w[1..], rest);
    }
  }

  lemma JoinSplits(words: seq<string>)
    requires words != [] && SpaceFree(words[0])
    ensures FirstSpace(Join(words)) == |words[0]|
    ensures Join(words)[..|words[0]|] == words[0]
    ensures |words| == 1 <==> Join(words) == words[0]
    ensures |words| > 1 ==> Join(words)[|words[0]| + 1..] == Join(words[1..])
  {
    if |words| == 1 {
      FirstSpaceAfter(words[0], "");
      assert words[0] + "" == words[0];
    } else {
      var rest := " " + Join(words[1..]);
      FirstSpaceAfter(words[0], rest);
      assert Join(words) == words[0] + rest;
    }
  }

  /** Splitting on spaces undoes joining, so equal mnemonics mean equal words. */
  lemma {:induction false} JoinIsInjective(a: seq<string>, b: seq<string>)
    requires a != [] && b != [] && Join(a) == Join(b)
    requires (forall i :: 0 <= i < |a| ==> SpaceFree(a[i])) && (forall i :: 0 <= i < |b| ==> SpaceFree(b[i]))
    ensures a == b
  {
    JoinSplits(a);
    JoinSplits(b);
    if |a| > 1 {
      JoinIsInjective(a[1..], b[1..]);
      assert a == [a[0]] + a[1..] && b == [b[0]] + b[1..];
    }
  }

  /** Recovery by single words takes exactly the generated list, word for word. */
  lemma RecoveryTakesExactWords(calls: seq<Call>, words: seq<string>, env: Env)
    requires words != [] && (forall i :: 0 <= i < |words| ==> SpaceFree(words[i]))
    requires LatestWords(calls).Some? ==>
               LatestWords(calls).value != [] && forall i :: 0 <= i < |LatestWords(calls).value| ==> SpaceFree(LatestWords(calls).value[i])
    ensures Succeeds(Run(calls), UnlockWithRecovery(words), env) <==>
            env.readable && KnowsKey(calls) && LatestWords(calls) == Some(words)
  {
    RecoveryUnlockExactly(calls, words, env);
    if LatestWords(calls).Some? && Join(words) == Join(LatestWords(calls).value) {
      JoinIsInjective(words, LatestWords(calls).value);
    }
  }
}
