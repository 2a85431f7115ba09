/** The key manager itself: sealed wrappers on disk, a key buffer in memory. Refines the vault. */
module Keyset {
  import opened Common
  import opened Vault

  // Ideal primitives: a derived key names everything it came from, and a box opens only under the
  // key and nonce that sealed it.
  datatype Params = Params(alg: string, time: nat, memory: nat, threads: nat)

  datatype DerivedKey = DerivedKey(secret: string, salt: seq<byte>, params: Params)

  datatype Box = Box(key: DerivedKey, nonce: seq<byte>, plain: seq<byte>)

  function Open(key: DerivedKey, nonce: seq<byte>, box: Box): Option<seq<byte>> {
    if box.key == key && box.nonce == nonce then Some(box.plain) else None
  }

  datatype FileState = FileState(sdek: Box, salt: seq<byte>, nonce: seq<byte>, kdf: Params,
                                 rkSalt: seq<byte>, rkNonce: seq<byte>, sdekRK: Option<Box>)

  const KEY_SIZE := 32
  const SALT_SIZE := 16
  const NONCE_SIZE := 12
  const WORD_COUNT := 24

  const WORDLIST := ["alpha", "bravo", "charlie", "delta", "echo", "foxtrot", "golf", "hotel", "india", "juliet", "kilo",
                     "lima", "mike", "november", "oscar", "papa", "quebec", "romeo", "sierra", "tango", "uniform", "victor",
                     "whiskey", "xray", "yankee", "zulu"]

  /** The key file, and what the machine currently grants. */
  class Disk {
    var keyset: Option<FileState>
    var readable: bool
    var writable: bool
    var entropy: bool

    function Grants(): Env
      reads this
    {
      Env(readable, writable, entropy)
    }
  }

  /** Both wrappers hold the same key, each sealed under its own secret. */
  ghost predicate WellSealed(st: FileState) {
    && st.kdf.alg == "argon2id"
    && st.sdek.key == DerivedKey(st.sdek.key.secret, st.salt, st.kdf) && st.sdek.nonce == st.nonce
    && |st.sdek.plain| == 32
    && (st.sdekRK.Some? ==>
          && st.sdekRK.value.key == DerivedKey(st.sdekRK.value.key.secret, st.rkSalt, st.kdf)
          && st.sdekRK.value.nonce == st.rkNonce && st.sdekRK.value.plain == st.sdek.plain)
  }

  ghost function SecretsIn(st: FileState): Secrets {
    Secrets(st.sdek.plain, st.sdek.key.secret, match st.sdekRK case None => None case Some(b) => Some(b.key.secret))
  }

  method RandomBytes(n: nat) returns (b: seq<byte>)
    ensures |b| == n
  {
    assert |seq(n, _ => 0 as byte)| == n;
    b :| |b| == n;
  }

  method ZeroBytes(b: array<byte>)
    modifies b
    ensures forall i :: 0 <= i < b.Length ==> b[i] == 0
  {
    for i := 0 to b.Length
      invariant forall j :: 0 <= j < i ==> b[j] == 0
    {
      b[i] := 0;
    }
  }

  method Buffer(s: seq<byte>) returns (b: array<byte>)
    ensures fresh(b) && b[..] == s
  {
    b := new byte[|s|];
    for i := 0 to |s|
      invariant b[..i] == s[..i]
    {
      b[i] := s[i];
    }
  }

  /** A callback that is lent a key: it may do anything to the buffer, and remembers what it was shown. */
  class Borrower {
    ghost var shown: seq<Key>

    method Use(b: array<byte>, works: bool) returns (ok: bool)
      modifies this, b
      ensures shown == old(shown) + [old(b[..])] && ok == works
    {
      shown := shown + [b[..]];
      for i := 0 to b.Length
        invariant shown == old(shown) + [old(b[..])]
      {
        b[i] := *;
      }
      ok := works;
    }
  }

  method JoinWords(words: seq<string>) returns (mnemonic: string)
    ensures mnemonic == Join(words)
  {
    mnemonic := "";
    for i := 0 to |words|
      invariant mnemonic == Join(words[..i])
    {
      JoinSnoc(words[..i], words[i]);
      assert words[..i + 1] == words[..i] + [words[i]];
      if i > 0 {
        mnemonic := mnemonic + " ";
      }
      mnemonic := mnemonic + words[i];
    }
    assert words[..|words|] == words;
  }

  lemma JoinCons(w: string, words: seq<string>)
    requires words != []
    ensures Join([w] + words) == w + " " + Join(words)
  {
    assert ([w] + words)[1..] == words;
  }

  lemma {:induction false} JoinSnoc(words: seq<string>, w: string)
    ensures Join(words + [w]) == if words == [] then w else Join(words) + " " + w
  {
    if words == [] {
      assert words + [w] == [w];
    } else if |words| == 1 {
      assert words + [w] == [words[0]] + [w];
      JoinCons(words[0], [w]);
    } else {
      var first, rest := words[0], words[1..];
      assert words == [first] + rest && words + [w] == [first] + (rest + [w]);
      JoinSnoc(rest, w);
      JoinCons(first, rest);
      JoinCons(first, rest + [w]);
      assert first + " " + (Join(rest) + " " + w) == (first + " " + Join(rest)) + " " + w;
    }
  }

  method MakeWords(random: seq<byte>) returns (words: seq<string>)
    ensures |words| == |random| && forall i :: 0 <= i < |words| ==> words[i] in WORDLIST
  {
    words := [];
    for i := 0 to |random|
      invariant |words| == i && forall j :: 0 <= j < i ==> words[j] in WORDLIST
    {
      words := words + [WORDLIST[random[i] as int % |WORDLIST|]];
    }
  }

  class Manager {
    const disk: Disk
    var sdek: array?<byte>
    var inited: bool

    ghost predicate Valid()
      reads this, disk, sdek
    {
      && (disk.keyset.Some? ==> WellSealed(disk.keyset.value))
      && (inited ==> disk.keyset.Some?)
      && (sdek != null ==> inited && sdek[..] == disk.keyset.value.sdek.plain)
    }

    /** The vault this manager implements, read off the file and the key buffer. */
    ghost function View(): Vault.State
      reads this, disk, sdek
    {
      Vault.State(match disk.keyset case None => None case Some(st) => Some(SecretsIn(st)),
                  inited, if sdek == null then None else Some(sdek[..]))
    }

    /** A process start: the file's presence is all it looks at, and a failed stat reads as absence. */
    constructor (disk: Disk, statOk: bool, ghost before: Vault.State)
      requires disk.keyset.Some? ==> WellSealed(disk.keyset.value)
      requires before.stored == match disk.keyset case None => None case Some(st) => Some(SecretsIn(st))
      ensures this.disk == disk && Valid() && View() == Step(before, Restart(statOk), disk.Grants())
    {
      this.disk := disk;
      sdek := null;
      inited := statOk && disk.keyset.Some?;
    }

    method Setup(password: string) returns (ok: bool, ghost key: Key)
      requires Valid()
      modifies this, disk
      ensures Valid() && disk.Grants() == old(disk.Grants())
      ensures View() == Step(old(View()), Vault.Setup(password, key), disk.Grants())
      ensures ok <==> Succeeds(old(View()), Vault.Setup(password, key), disk.Grants())
      ensures sdek == old(sdek) || sdek == null
      ensures ok ==>
                && |key| == 32 && |disk.keyset.value.salt| == 16 && |disk.keyset.value.nonce| == 12
                && disk.keyset.value.kdf.time == 3 && disk.keyset.value.kdf.memory == 524_288
    {
      key := [];
      if password == "" || inited || !disk.entropy {
        return false, key;
      }
      var threads: nat := *;
      var params := Params("argon2id", 3, 512 * 1024, threads);
      var salt := RandomBytes(SALT_SIZE);
      var sdekPlain := RandomBytes(KEY_SIZE);
      var nonce := RandomBytes(NONCE_SIZE);
      key := sdekPlain;
      if !disk.writable {
        return false, key;
      }
      disk.keyset := Some(FileState(Box(DerivedKey(password, salt, params), nonce, sdekPlain), salt, nonce, params, [], [], None));
      inited := true;
      sdek := null;
      ok := true;
    }

    method Unlock(password: string) returns (ok: bool)
      requires Valid()
      modifies this
      ensures Valid() && View() == Step(old(View()), Vault.Unlock(password), disk.Grants())
      ensures ok <==> Succeeds(old(View()), Vault.Unlock(password), disk.Grants())
      ensures sdek == old(sdek) || fresh(sdek)
    {
      if password == "" || !inited || !disk.readable {
        return false;
      }
      var st := disk.keyset.value;
      if st.kdf.alg != "argon2id" {
        return false;
      }
      var plain := Open(DerivedKey(password, st.salt, st.kdf), st.nonce, st.sdek);
      if plain.None? {
        return false;
      }
      sdek := Buffer(plain.value);
      ok := true;
    }

    /** Overwrites the key before dropping it. */
    method Lock()
      requires Valid()
      modifies this, sdek
      ensures Valid() && View() == Step(old(View()), Vault.Lock, disk.Grants())
      ensures sdek == null
      ensures old(sdek) != null ==> forall i :: 0 <= i < old(sdek).Length ==> old(sdek)[i] == 0
    {
      if sdek != null {
        ZeroBytes(sdek);
      }
      sdek := null;
    }

    /** Lends a copy of an open vault's key, once; whatever happens to the copy, the key stays, and the copy ends as zeros. */
    method WithSDEK(fn: Borrower, works: bool) returns (ok: bool, ghost lent: array?<byte>)
      requires Valid()
      modifies fn
      ensures Valid() && View() == old(View())
      ensures fn.shown == if View().open.Some? then old(fn.shown) + [View().open.value] else old(fn.shown)
      ensures ok <==> View().open.Some? && works
      ensures lent == null <==> View().open.None?
      ensures lent != null ==> fresh(lent) && forall i :: 0 <= i < lent.Length ==> lent[i] == 0
    {
      lent := null;
      if !inited || sdek == null {
        return false, lent;
      }
      var copy := Buffer(sdek[..]);
      ok := fn.Use(copy, works);
      ZeroBytes(copy);
      lent := copy;
    }

    method Rewrap(oldPassword: string, newPassword: string) returns (ok: bool)
      requires Valid()
      modifies disk
      ensures Valid() && disk.Grants() == old(disk.Grants())
      ensures View() == Step(old(View()), Vault.Rewrap(oldPassword, newPassword), disk.Grants())
      ensures ok <==> Succeeds(old(View()), Vault.Rewrap(oldPassword, newPassword), disk.Grants())
    {
      if oldPassword == "" || newPassword == "" || !inited || !disk.readable {
        return false;
      }
      var st := disk.keyset.value;
      if st.kdf.alg != "argon2id" {
        return false;
      }
      var plain := Open(DerivedKey(oldPassword, st.salt, st.kdf), st.nonce, st.sdek);
      if plain.None? || !disk.entropy {
        return false;
      }
      ok := SavePasswordWrapper(st, plain.value, newPassword);
    }

    method RewrapUnlocked(newPassword: string) returns (ok: bool)
      requires Valid()
      modifies disk
      ensures Valid() && disk.Grants() == old(disk.Grants())
      ensures View() == Step(old(View()), Vault.RewrapUnlocked(newPassword), disk.Grants())
      ensures ok <==> Succeeds(old(View()), Vault.RewrapUnlocked(newPassword), disk.Grants())
    {
      if newPassword == "" || !inited || sdek == null || !disk.readable {
        return false;
      }
      var st := disk.keyset.value;
      if st.kdf.alg != "argon2id" || !disk.entropy {
        return false;
      }
      ok := SavePasswordWrapper(st, sdek[..], newPassword);
    }

    /** Seals the key under a password with a new salt and nonce; the recovery wrapper is carried over. */
    method SavePasswordWrapper(st: FileState, plain: seq<byte>, password: string) returns (ok: bool)
      requires Valid() && disk.keyset == Some(st) && plain == st.sdek.plain
      modifies disk
      ensures Valid() && disk.Grants() == old(disk.Grants()) && (ok <==> disk.writable)
      ensures disk.keyset.Some?
      ensures !ok ==> disk.keyset == old(disk.keyset)
      ensures ok ==> SecretsIn(disk.keyset.value) == SecretsIn(st).(password := password)
    {
      var salt := RandomBytes(SALT_SIZE);
      var nonce := RandomBytes(NONCE_SIZE);
      ok := disk.writable;
      if ok {
        disk.keyset := Some(st.(sdek := Box(DerivedKey(password, salt, st.kdf), nonce, plain), salt := salt, nonce := nonce));
      }
    }

    method GenerateRecoveryKey(force: bool) returns (words: Option<seq<string>>, ghost drawn: seq<string>)
      requires Valid()
      modifies disk
      ensures Valid() && disk.Grants() == old(disk.Grants())
      ensures View() == Step(old(View()), GenerateRecovery(force, drawn), disk.Grants())
      ensures words == if Succeeds(old(View()), GenerateRecovery(force, drawn), disk.Grants()) then Some(drawn) else None
      ensures words.Some? ==> |drawn| == WORD_COUNT && forall i :: 0 <= i < |drawn| ==> drawn[i] in WORDLIST
    {
      drawn := [];
      if !inited || !disk.readable {
        return None, drawn;
      }
      var st := disk.keyset.value;
      if (st.sdekRK.Some? && !force) || sdek == null || !disk.entropy {
        return None, drawn;
      }
      words, drawn := SaveRecoveryWrapper(st, sdek[..]);
    }

    method GenerateRecoveryKeyWithPassword(password: string, force: bool) returns (words: Option<seq<string>>, ghost drawn: seq<string>)
      requires Valid()
      modifies disk
      ensures Valid() && disk.Grants() == old(disk.Grants())
      ensures View() == Step(old(View()), GenerateRecoveryWithPassword(password, force, drawn), disk.Grants())
      ensures words == if Succeeds(old(View()), GenerateRecoveryWithPassword(password, force, drawn), disk.Grants()) then Some(drawn) else None
      ensures words.Some? ==> |drawn| == WORD_COUNT && forall i :: 0 <= i < |drawn| ==> drawn[i] in WORDLIST
    {
      drawn := [];
      if password == "" || !inited || !disk.readable {
        return None, drawn;
      }
      var st := disk.keyset.value;
      if st.sdekRK.Some? && !force {
        return None, drawn;
      }
      var plain := Open(DerivedKey(password, st.salt, st.kdf), st.nonce, st.sdek);
      if plain.None? || !disk.entropy {
        return None, drawn;
      }
      words, drawn := SaveRecoveryWrapper(st, plain.value);
    }

    /** Draws words and seals the key under their mnemonic; the password wrapper is carried over. */
    method SaveRecoveryWrapper(st: FileState, plain: seq<byte>) returns (words: Option<seq<string>>, ghost drawn: seq<string>)
      requires Valid() && disk.keyset == Some(st) && plain == st.sdek.plain
      modifies disk
      ensures Valid() && disk.Grants() == old(disk.Grants()) && disk.keyset.Some?
      ensures words == if disk.writable then Some(drawn) else None
      ensures words.None? ==> disk.keyset == old(disk.keyset)
      ensures words.Some? ==> SecretsIn(disk.keyset.value) == SecretsIn(st).(mnemonic := Some(Join(drawn)))
      ensures |drawn| == WORD_COUNT && forall i :: 0 <= i < |drawn| ==> drawn[i] in WORDLIST
    {
      var random := RandomBytes(WORD_COUNT);
      var picked := MakeWords(random);
      drawn := picked;
      var mnemonic := JoinWords(picked);
      var salt := RandomBytes(SALT_SIZE);
      var nonce := RandomBytes(NONCE_SIZE);
      words := None;
      if disk.writable {
        disk.keyset := Some(st.(rkSalt := salt, rkNonce := nonce, sdekRK := Some(Box(DerivedKey(mnemonic, salt, st.kdf), nonce, plain))));
        words := Some(picked);
      }
    }

    method UnlockWithRecoveryKey(words: seq<string>) returns (ok: bool)
      requires Valid()
      modifies this
      ensures Valid() && View() == Step(old(View()), UnlockWithRecovery(words), disk.Grants())
      ensures ok <==> Succeeds(old(View()), UnlockWithRecovery(words), disk.Grants())
      ensures sdek == old(sdek) || fresh(sdek)
    {
      if words == [] {
        return false;
      }
      var mnemonic := JoinWords(words);
      if !inited || !disk.readable {
        return false;
      }
      var st := disk.keyset.value;
      if st.sdekRK.None? {
        return false;
      }
      var plain := Open(DerivedKey(mnemonic, st.rkSalt, st.kdf), st.rkNonce, st.sdekRK.value);
      if plain.None? {
        return false;
      }
      sdek := Buffer(plain.value);
      ok := true;
    }
  }

  // ---------------------------------------------------------------- whole runs of the real state

  /** Any sequence of calls and restarts, each under whatever the machine grants at the time, is a run of the vault,
      and every recovery key it generated is made of words of the list. */
  method Exercise(disk: Disk, script: seq<Call>) returns (m: Manager, ghost calls: seq<Call>)
    requires disk.keyset.None?
    modifies disk
    ensures fresh(m) && m.disk == disk && m.Valid() && m.View() == Run(calls)
    ensures (m.sdek == null || fresh(m.sdek)) && AllDrawn(calls)
    ensures |calls| == |script| && forall i :: 0 <= i < |calls| ==> SameRequest(calls[i], script[i])
  {
    m := new Manager(disk, true, INITIAL);
    calls := [];
    for i := 0 to |script|
      invariant fresh(m) && m.disk == disk && (m.sdek == null || fresh(m.sdek))
      invariant m.Valid() && m.View() == Run(calls) && AllDrawn(calls)
      invariant |calls| == i && forall j :: 0 <= j < i ==> SameRequest(calls[j], script[j])
    {
      ghost var op;
      m, op := Perform(m, script[i]);
      RunSnoc(calls, Call(op, script[i].env));
      calls := calls + [Call(op, script[i].env)];
    }
  }

  /** Same call, up to the random key or words it drew. */
  ghost predicate SameRequest(a: Call, b: Call) {
    && a.env == b.env
    && match b.op
       case Setup(pw, _) => a.op.Setup? && a.op.password == pw
       case GenerateRecovery(force, _) => a.op.GenerateRecovery? && a.op.force == force
       case GenerateRecoveryWithPassword(pw, force, _) =>
         a.op.GenerateRecoveryWithPassword? && a.op.password == pw && a.op.force == force
       case _ => a.op == b.op
  }

  /** What MakeWords draws for a recovery key. */
  ghost predicate Drawn(words: seq<string>) {
    |words| == WORD_COUNT && forall i :: 0 <= i < |words| ==> words[i] in WORDLIST
  }

  /** If the call generates a recovery key, the key is drawn from the list. */
  ghost predicate DrawsWords(v: State, op: Op, env: Env) {
    Succeeds(v, op, env) && (op.GenerateRecovery? || op.GenerateRecoveryWithPassword?) ==> Drawn(op.words)
  }

  ghost predicate AllDrawn(calls: seq<Call>) {
    forall i :: 0 <= i < |calls| ==> DrawsWords(Run(calls[..i]), calls[i].op, calls[i].env)
  }

  lemma RunSnoc(calls: seq<Call>, call: Call)
    ensures Run(calls + [call]) == Step(Run(calls), call.op, call.env)
    ensures AllDrawn(calls) && DrawsWords(Run(calls), call.op, call.env) ==> AllDrawn(calls + [call])
  {
    var more := calls + [call];
    assert more[..|calls|] == calls;
    assert forall i :: 0 <= i < |calls| ==> more[..i] == calls[..i] && more[i] == calls[i];
  }

  method Perform(m: Manager, call: Call) returns (after: Manager, ghost op: Op)
    requires m.Valid()
    modifies m, m.disk, m.sdek
    ensures after.disk == m.disk && after.Valid() && (after == m || fresh(after))
    ensures after.sdek == null || after.sdek == old(m.sdek) || fresh(after.sdek)
    ensures after.View() == Step(old(m.View()), op, call.env) && DrawsWords(old(m.View()), op, call.env)
    ensures SameRequest(Call(op, call.env), call)
  {
    ghost var v := m.View();
    Grant(m, call.env);
    if call.op.Restart? {
      after := new Manager(m.disk, call.op.statOk, v);
      op := call.op;
    } else {
      op := PerformRunning(m, call.op);
      after := m;
    }
  }

  method Grant(m: Manager, env: Env)
    requires m.Valid()
    modifies m.disk
    ensures m.Valid() && m.View() == old(m.View()) && m.disk.Grants() == env && m.disk.keyset == old(m.disk.keyset)
  {
    m.disk.readable, m.disk.writable, m.disk.entropy := env.readable, env.writable, env.entropy;
  }

  method PerformRunning(m: Manager, request: Op) returns (ghost op: Op)
    requires m.Valid() && !request.Restart?
    modifies m, m.disk, m.sdek
    ensures m.Valid() && m.disk.Grants() == old(m.disk.Grants())
    ensures m.sdek == null || m.sdek == old(m.sdek) || fresh(m.sdek)
    ensures m.View() == Step(old(m.View()), op, m.disk.Grants()) && DrawsWords(old(m.View()), op, m.disk.Grants())
    ensures SameRequest(Call(op, m.disk.Grants()), Call(request, m.disk.Grants()))
  {
    if request.GenerateRecovery? || request.GenerateRecoveryWithPassword? || request.UnlockWithRecovery? {
      op := PerformRecovery(m, request);
    } else {
      op := PerformPassword(m, request);
    }
  }

  method PerformPassword(m: Manager, request: Op) returns (ghost op: Op)
    requires m.Valid()
    requires request.Setup? || request.Unlock? || request.Lock? || request.Rewrap? || request.RewrapUnlocked?
    modifies m, m.disk, m.sdek
    ensures m.Valid() && m.disk.Grants() == old(m.disk.Grants())
    ensures m.sdek == null || m.sdek == old(m.sdek) || fresh(m.sdek)
    ensures m.View() == Step(old(m.View()), op, m.disk.Grants()) && SameRequest(Call(op, m.disk.Grants()), Call(request, m.disk.Grants()))
  {
    op := request;
    var ok;
    match request {
      case Setup(pw, _) => ghost var key; ok, key := m.Setup(pw); op := Setup(pw, key);
      case Unlock(pw) => ok := m.Unlock(pw);
      case Lock => m.Lock();
      case Rewrap(before, to) => ok := m.Rewrap(before, to);
      case RewrapUnlocked(to) => ok := m.RewrapUnlocked(to);
    }
  }

  method PerformRecovery(m: Manager, request: Op) returns (ghost op: Op)
    requires m.Valid()
    requires request.GenerateRecovery? || request.GenerateRecoveryWithPassword? || request.UnlockWithRecovery?
    modifies m, m.disk
    ensures m.Valid() && m.disk.Grants() == old(m.disk.Grants())
    ensures m.sdek == null || m.sdek == old(m.sdek) || fresh(m.sdek)
    ensures m.View() == Step(old(m.View()), op, m.disk.Grants()) && DrawsWords(old(m.View()), op, m.disk.Grants())
    ensures SameRequest(Call(op, m.disk.Grants()), Call(request, m.disk.Grants()))
  {
    op := request;
    match request {
      case GenerateRecovery(force, _) =>
        ghost var drawn; var words; words, drawn := m.GenerateRecoveryKey(force); op := GenerateRecovery(force, drawn);
      case GenerateRecoveryWithPassword(pw, force, _) =>
        ghost var drawn; var words; words, drawn := m.GenerateRecoveryKeyWithPassword(pw, force);
        op := GenerateRecoveryWithPassword(pw, force, drawn);
      case UnlockWithRecovery(words) => var ok := m.UnlockWithRecoveryKey(words);
    }
  }

  // ---------------------------------------------------------------- recovery, word for word

  /** Every generated word is a single word. */
  lemma WordsAreSingle(w: string)
    requires w in WORDLIST
    ensures SpaceFree(w) && w != ""
  {
    var i :| 0 <= i < |WORDLIST| && WORDLIST[i] == w;
    if i < 13 {
      EarlyWordIsSingle(i);
    } else {
      LateWordIsSingle(i);
    }
  }

  lemma EarlyWordIsSingle(i: nat)
    requires i < 13
    ensures SpaceFree(WORDLIST[i]) && WORDLIST[i] != ""
  {
  }

  lemma LateWordIsSingle(i: nat)
    requires 13 <= i < |WORDLIST|
    ensures SpaceFree(WORDLIST[i]) && WORDLIST[i] != ""
  {
  }

  lemma {:induction false} LatestWordsAreDrawn(calls: seq<Call>)
    requires AllDrawn(calls)
    ensures LatestWords(calls).Some? ==> Drawn(LatestWords(calls).value) && |LatestWords(calls).value| == 24
  {
    if calls != [] {
      var last := |calls| - 1;
      var before := calls[..last];
      assert forall i :: 0 <= i < last ==> before[..i] == calls[..i] && before[i] == calls[i];
      LatestWordsAreDrawn(before);
      assert DrawsWords(Run(calls[..last]), calls[last].op, calls[last].env);
    }
  }

  /** After any calls that drew their words from the list, single words open the vault exactly when they are the
      generated ones, in their order. */
  lemma RecoveryIsWordForWord(calls: seq<Call>, words: seq<string>, env: Env)
    requires AllDrawn(calls) && forall i :: 0 <= i < |words| ==> SpaceFree(words[i])
    ensures Succeeds(Run(calls), UnlockWithRecovery(words), env) <==>
            env.readable && KnowsKey(calls) && LatestWords(calls) == Some(words)
  {
    LatestWordsAreDrawn(calls);
    if words != [] {
      if LatestWords(calls).Some? {
        forall i | 0 <= i < |LatestWords(calls).value| ensures SpaceFree(LatestWords(calls).value[i]) {
          WordsAreSingle(LatestWords(calls).value[i]);
        }
      }
      RecoveryTakesExactWords(calls, words, env);
    }
  }

  /** On the real state: after any script, typing single words recovers exactly when they are the latest generated list. */
  method RecoverAfter(disk: Disk, script: seq<Call>, words: seq<string>, env: Env) returns (ok: bool, ghost calls: seq<Call>)
    requires disk.keyset.None? && forall i :: 0 <= i < |words| ==> SpaceFree(words[i])
    modifies disk
    ensures |calls| == |script| && forall i :: 0 <= i < |calls| ==> SameRequest(calls[i], script[i])
    ensures ok <==> env.readable && KnowsKey(calls) && LatestWords(calls) == Some(words)
  {
    var m;
    m, calls := Exercise(disk, script);
    Grant(m, env);
    RecoveryIsWordForWord(calls, words, env);
    ok := m.UnlockWithRecoveryKey(words);
  }
}
