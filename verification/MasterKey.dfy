/** Where the device master key is kept, as steps between any two of which the
    program may be cut off, with keychain and file operations that may fail. */
module MasterKey {
  import opened Wrappers

  datatype Key = Key(bytes: nat)

  datatype Source = Keychain | KeyFile | Password

  /** `master.pw`: opens to the key under its password, and under no other. */
  datatype PasswordRecord = PasswordRecord(key: Key, password: string)

  /** A file on disk: absent, holding nothing that parses, or complete. */
  datatype File<T> = Absent | Torn | Holds(value: T)

  datatype Failure = Crashed | Protected | Corrupt | WrongPassword | TooShort | NotStored | NoFile

  const MIN_PASSWORD_CHARS: nat := 8

  class Profile {
    var keyFile: File<Key>
    var pw: File<PasswordRecord>
    var tmp: File<PasswordRecord>
    /** What the keychain holds. An entry it holds, it hands out. */
    var keychain: Option<Key>
    /** How many more steps are taken before the program is cut off. */
    var steps: nat
    /** Whether the next fallible operations succeed. */
    var luck: seq<bool>
    /** The key of this profile, once there is one. */
    ghost var key: Option<Key>

    /** Every readable copy is the profile's key, and one can still be reached. */
    ghost predicate Valid()
      reads this
    {
      && (keychain.Some? ==> key == keychain)
      && (keyFile.Holds? ==> key == Some(keyFile.value))
      && (pw.Holds? ==> key == Some(pw.value.key)) && !pw.Torn?
      && (key.Some? ==> pw.Holds? || keychain.Some? || keyFile.Holds?)
    }

    constructor ()
      ensures Valid() && key == None && keyFile == Absent && pw == Absent && keychain == None
    {
      keyFile, pw, tmp, keychain, steps, luck, key := Absent, Absent, Absent, None, 0, [], None;
    }

    /** Power is back: the program runs again, for a while and with some luck. */
    method Restart(steps: nat, luck: seq<bool>)
      modifies this`steps, this`luck
      ensures this.steps == steps && this.luck == luck
    {
      this.steps, this.luck := steps, luck;
    }

    /** Take one step, unless this is where the program is cut off. */
    method Step() returns (alive: bool)
      modifies this`steps
      ensures alive <==> old(steps) > 0
      ensures steps == if alive then old(steps) - 1 else 0
    {
      alive := steps > 0;
      if alive { steps := steps - 1; }
    }

    method Succeeds() returns (ok: bool)
      modifies this`luck
      ensures ok <==> old(luck) == [] || old(luck)[0]
      ensures luck == if old(luck) == [] then [] else old(luck)[1..]
    {
      ok := luck == [] || luck[0];
      if luck != [] { luck := luck[1..]; }
    }

    /** The next `n` steps are taken and nothing fails. */
    predicate Quiet(n: nat)
      reads this`steps, this`luck
    {
      steps >= n && luck == []
    }

    // ----- single steps -----

    /** Store the key in the keychain; a failing keychain keeps what it has. */
    method KeychainSet(k: Key) returns (r: Result<bool, Failure>)
      requires Valid() && (key == Some(k) || key == None)
      modifies this`keychain, this`steps, this`luck, this`key
      ensures Valid() && (key == old(key) || (old(key) == None && key == Some(k)))
      ensures r == Ok(true) ==> keychain == Some(k) && key == Some(k)
      ensures r != Ok(true) ==> keychain == old(keychain) && key == old(key)
      ensures r.Err? ==> r.error == Crashed
      ensures old(steps) > 0 && old(luck) != [] && !old(luck)[0] ==>
        r == Ok(false) && steps == old(steps) - 1 && luck == old(luck)[1..]
      ensures old(Quiet(1)) ==> r == Ok(true) && steps == old(steps) - 1 && luck == []
    {
      var alive := Step();
      if !alive { return Err(Crashed); }
      var ok := Succeeds();
      if !ok { return Ok(false); }
      keychain, key := Some(k), Some(k);
      r := Ok(true);
    }

    /** Take the entry out of the keychain, unless it fails. Needs the password record to be in place. */
    method KeychainDelete() returns (alive: bool)
      requires Valid() && pw.Holds?
      modifies this`keychain, this`steps, this`luck
      ensures Valid() && (keychain == old(keychain) || keychain == None)
      ensures old(Quiet(1)) ==> alive && keychain == None && steps == old(steps) - 1 && luck == []
    {
      alive := Step();
      if !alive { return; }
      var ok := Succeeds();
      if ok { keychain := None; }
    }

    method RemoveKeyFile() returns (r: Result<bool, Failure>)
      requires Valid() && (pw.Holds? || keychain.Some?)
      modifies this`keyFile, this`steps, this`luck
      ensures Valid() && (keyFile == old(keyFile) || keyFile == Absent)
      ensures r == Ok(true) ==> keyFile == Absent
      ensures r.Err? ==> r.error == Crashed
      ensures old(Quiet(1)) ==> r == Ok(true) && steps == old(steps) - 1 && luck == []
    {
      var alive := Step();
      if !alive { return Err(Crashed); }
      var ok := Succeeds();
      if !ok { return Ok(false); }
      keyFile := Absent;
      r := Ok(true);
    }

    /** Create the key file, then fill it: a crash in between leaves it torn. */
    method WriteKeyFile(k: Key) returns (r: Result<bool, Failure>)
      requires Valid() && (key == Some(k) || key == None) && keyFile == Absent
      modifies this`keyFile, this`steps, this`luck, this`key
      ensures Valid() && (key == old(key) || (old(key) == None && key == Some(k)))
      ensures r == Ok(true) ==> keyFile == Holds(k) && key == Some(k)
      ensures r != Ok(true) ==> key == old(key) && keyFile in {Absent, Torn}
      ensures r.Err? ==> r.error == Crashed
      ensures old(steps) == 1 && old(luck) != [] && old(luck)[0] ==> r == Err(Crashed) && keyFile == Torn
      ensures old(Quiet(2)) ==> r == Ok(true) && steps == old(steps) - 2 && luck == []
    {
      var alive := Step();
      if !alive { return Err(Crashed); }
      var ok := Succeeds();
      if !ok { return Ok(false); }
      keyFile := Torn;
      alive := Step();
      if !alive { return Err(Crashed); }
      ok := Succeeds();
      if !ok { return Ok(false); }
      keyFile, key := Holds(k), Some(k);
      r := Ok(true);
    }

    /** A temporary file left by an earlier change goes first. */
    method ClearTemporary() returns (r: Result<bool, Failure>)
      modifies this`tmp, this`steps, this`luck
      ensures r == Ok(true) ==> tmp == Absent
      ensures r.Err? ==> r.error == Crashed
      ensures old(Quiet(1)) ==> r == Ok(true) && steps == old(steps) - 1 && luck == []
    {
      var alive := Step();
      if !alive { return Err(Crashed); }
      if tmp != Absent {
        var ok := Succeeds();
        if !ok { return Ok(false); }
        tmp := Absent;
      }
      r := Ok(true);
    }

    /** Create the temporary file, fill it and read it back. */
    method FillTemporary(record: PasswordRecord) returns (r: Result<bool, Failure>)
      requires tmp == Absent
      modifies this`tmp, this`steps, this`luck
      ensures r == Ok(true) ==> tmp == Holds(record)
      ensures r.Err? ==> r.error == Crashed
      ensures old(Quiet(2)) ==> r == Ok(true) && steps == old(steps) - 2 && luck == []
    {
      var alive := Step();
      if !alive { return Err(Crashed); }
      var ok := Succeeds();
      if !ok { return Ok(false); }
      tmp := Torn;
      alive := Step();
      if !alive { return Err(Crashed); }
      ok := Succeeds();
      if !ok { return Ok(false); }
      tmp := Holds(record);
      ok := Succeeds();
      if !ok || tmp.value != record {
        var removed := Succeeds();
        if removed { tmp := Absent; }
        return Ok(false);
      }
      r := Ok(true);
    }

    /** Replace `master.pw` by way of a temporary file that is read back before
        the rename. Whatever was there survives every failure. */
    method WritePassword(record: PasswordRecord) returns (r: Result<bool, Failure>)
      requires Valid() && key == Some(record.key)
      modifies this`pw, this`tmp, this`steps, this`luck
      ensures Valid() && (pw == old(pw) || pw == Holds(record))
      ensures r == Ok(true) ==> pw == Holds(record)
      ensures r.Ok? && !r.value ==> pw == old(pw)
      ensures r.Err? ==> r.error == Crashed
      ensures old(Quiet(4)) ==> r == Ok(true) && steps == old(steps) - 4 && luck == []
    {
      r := ClearTemporary();
      if r != Ok(true) { return; }
      r := FillTemporary(record);
      if r != Ok(true) { return; }
      var alive := Step();
      if !alive { return Err(Crashed); }
      var ok := Succeeds();
      if !ok { return Ok(false); }
      pw, tmp := tmp, Absent;
      r := Ok(true);
    }

    method RemovePasswordFile() returns (r: Result<bool, Failure>)
      requires Valid() && (keychain.Some? || keyFile.Holds?)
      modifies this`pw, this`steps, this`luck
      ensures Valid() && (pw == old(pw) || pw == Absent)
      ensures r == Ok(true) ==> pw == Absent
      ensures r != Ok(true) ==> pw == old(pw)
      ensures r.Err? ==> r.error == Crashed
      ensures old(Quiet(1)) && old(pw) != Absent ==> r == Ok(true) && steps == old(steps) - 1 && luck == []
    {
      var alive := Step();
      if !alive { return Err(Crashed); }
      if pw == Absent { return Ok(false); }
      var ok := Succeeds();
      if !ok { return Ok(false); }
      pw := Absent;
      r := Ok(true);
    }

    // ----- operations -----

    /** The keychain fails, the key file is created, and there the program ends. */
    predicate CutOffInFile()
      reads this`steps, this`luck
    {
      steps == 2 && |luck| > 1 && !luck[0] && luck[1]
    }

    /** Load the key, or create it on the first run: keychain, then file, then
        a new key. A profile that has a key never gets another one; it fails
        to load, short of a crash, exactly when it is behind a password or when
        all it has is a torn key file, which then never held a key. */
    method LoadOrCreate(allowFile: bool, generated: Key) returns (r: Result<(Key, Source), Failure>)
      requires Valid()
      modifies this`keyFile, this`keychain, this`steps, this`luck, this`key
      ensures Valid() && (old(key).Some? ==> key == old(key))
      ensures r.Ok? ==> key == Some(r.value.0)
      ensures old(key).Some? ==> r.Ok? || r == Err(Protected)
      ensures r == Err(Protected) <==> old(pw).Holds?
      ensures r == Err(Corrupt) <==> old(pw) == Absent && old(keychain) == None && old(keyFile).Torn?
      ensures r == Err(Corrupt) ==> old(key) == None && keyFile == old(keyFile) && keychain == old(keychain)
      ensures
        var first := old(pw) == Absent && old(keychain) == None && old(keyFile) == Absent;
        first && allowFile && old(CutOffInFile()) ==> r == Err(Crashed) && keyFile == Torn && keychain == None
      ensures
        var first := old(pw) == Absent && old(keychain) == None && old(keyFile) == Absent;
        && (first && old(Quiet(1)) ==> r == Ok((generated, Keychain)) && keychain == Some(generated))
        && (first && old(steps) > 2 && old(luck) == [false] ==>
              if allowFile then r == Ok((generated, KeyFile)) && keyFile == Holds(generated) else r == Err(NotStored))
        && (r.Ok? && !first ==>
              && keychain == old(keychain) && keyFile == old(keyFile)
              && r.value.1 == if keychain.Some? then Keychain else KeyFile)
    {
      if pw != Absent { return Err(Protected); }
      if keychain.Some? { return Ok((keychain.value, Keychain)); }
      if keyFile.Torn? { return Err(Corrupt); }
      if keyFile.Holds? { return Ok((keyFile.value, KeyFile)); }
      var stored := KeychainSet(generated);
      if stored.Err? { return Err(stored.error); }
      if stored.value { return Ok((generated, Keychain)); }
      if !allowFile { return Err(NotStored); }
      var written := WriteKeyFile(generated);
      if written.Err? { return Err(written.error); }
      if !written.value { return Err(NotStored); }
      r := Ok((generated, KeyFile));
    }

    /** From key file to keychain: the file is erased only once the keychain has the key. */
    method MigrateFileToKeychain() returns (r: Result<bool, Failure>)
      requires Valid()
      modifies this`keyFile, this`keychain, this`steps, this`luck, this`key
      ensures Valid() && key == old(key)
      ensures r == Ok(true) ==> keyFile == Absent && keychain == key && key.Some?
      ensures r.Err? && keychain == old(keychain) ==> keyFile == old(keyFile) || keyFile == Absent
      ensures old(keyFile).Holds? && old(Quiet(2)) ==> r == Ok(true)
      ensures old(keyFile) == Absent ==> r == Ok(false) && keychain == old(keychain)
    {
      if keyFile == Absent { return Ok(false); }
      if keyFile.Torn? { return Err(Corrupt); }
      var stored := KeychainSet(keyFile.value);
      if stored.Err? { return Err(stored.error); }
      if !stored.value { return Err(NotStored); }
      var removed := RemoveKeyFile();
      if removed.Err? { return Err(removed.error); }
      if !removed.value { return Err(NoFile); }
      r := Ok(true);
    }

    /** Drop plaintext copies, as far as that succeeds. */
    method RemovePlainCopies() returns (alive: bool)
      requires Valid() && pw.Holds?
      modifies this`keyFile, this`keychain, this`steps, this`luck
      ensures Valid()
      ensures keyFile in {old(keyFile), Absent} && keychain in {old(keychain), None}
      ensures old(Quiet(2)) ==> alive && keyFile == Absent && keychain == None
    {
      alive := true;
      if keyFile != Absent {
        var removed := RemoveKeyFile();
        if removed.Err? { return false; }
      }
      alive := KeychainDelete();
    }

    /** Put the key behind a password, or change the password: afterwards the
        new password opens it, or everything is as it was. */
    method SetPassword(k: Key, password: string) returns (r: Result<(), Failure>)
      requires Valid() && key == Some(k)
      modifies this`keyFile, this`pw, this`tmp, this`keychain, this`steps, this`luck
      ensures Valid()
      ensures pw == Holds(PasswordRecord(k, password)) ||
              (pw == old(pw) && keyFile == old(keyFile) && keychain == old(keychain))
      ensures r.Ok? ==> pw == Holds(PasswordRecord(k, password)) && |password| >= MIN_PASSWORD_CHARS
      ensures |password| < MIN_PASSWORD_CHARS ==> r == Err(TooShort)
      ensures |password| >= MIN_PASSWORD_CHARS && old(Quiet(6)) ==> r == Ok(()) && keyFile == Absent && keychain == None
    {
      if |password| < MIN_PASSWORD_CHARS { return Err(TooShort); }
      var written := WritePassword(PasswordRecord(k, password));
      if written.Err? { return Err(written.error); }
      if !written.value { return Err(NotStored); }
      var alive := RemovePlainCopies();
      if !alive { return Err(Crashed); }
      r := Ok(());
    }

    /** Open the record; the plaintext copies an interrupted change left go. */
    method UnlockWithPassword(password: string) returns (r: Result<Key, Failure>)
      requires Valid()
      modifies this`keyFile, this`keychain, this`steps, this`luck
      ensures Valid()
      ensures r.Ok? ==> key == Some(r.value) && pw == Holds(PasswordRecord(r.value, password))
      ensures pw.Holds? && pw.value.password == password ==> r == Ok(pw.value.key) || r == Err(Crashed)
      ensures r == Err(WrongPassword) ==> keyFile == old(keyFile) && keychain == old(keychain)
      ensures r == Err(WrongPassword) <==> pw.Holds? && pw.value.password != password
      ensures r.Ok? && old(Quiet(2)) ==> keyFile == Absent && keychain == None
      ensures pw.Holds? && pw.value.password == password && old(Quiet(2)) ==> r.Ok?
    {
      if !pw.Holds? { return Err(NoFile); }
      if pw.value.password != password { return Err(WrongPassword); }
      var alive := RemovePlainCopies();
      if !alive { return Err(Crashed); }
      r := Ok(pw.value.key);
    }

    /** Store a plaintext copy where it can be loaded from. */
    method StorePlain(k: Key, allowFile: bool) returns (r: Result<Source, Failure>)
      requires Valid() && key == Some(k) && pw.Holds?
      modifies this`keyFile, this`keychain, this`steps, this`luck, this`key
      ensures Valid() && key == old(key)
      ensures r.Ok? ==> keychain == Some(k) || keyFile == Holds(k)
      ensures old(Quiet(1)) ==> r == Ok(Keychain) && keychain == Some(k) && steps == old(steps) - 1 && luck == []
    {
      var stored := KeychainSet(k);
      if stored.Err? { return Err(stored.error); }
      if stored.value { return Ok(Keychain); }
      if !allowFile { return Err(NotStored); }
      if keyFile != Absent {
        var removed := RemoveKeyFile();
        if removed.Err? { return Err(removed.error); }
        if !removed.value { return Err(NoFile); }
      }
      var written := WriteKeyFile(k);
      if written.Err? { return Err(written.error); }
      if !written.value { return Err(NotStored); }
      r := Ok(KeyFile);
    }

    /** Drop the password: a plaintext copy is stored first. Afterwards the
        profile loads without one, or its password still opens it. */
    method RemovePassword(k: Key, allowFile: bool) returns (r: Result<Source, Failure>)
      requires Valid() && key == Some(k) && pw.Holds?
      modifies this`keyFile, this`pw, this`keychain, this`steps, this`luck, this`key
      ensures Valid() && key == old(key)
      ensures pw == old(pw) || (pw == Absent && (keychain == Some(k) || keyFile == Holds(k)))
      ensures r.Ok? ==> pw == Absent
      ensures old(Quiet(2)) ==> r == Ok(Keychain) && keychain == Some(k)
    {
      var source := StorePlain(k, allowFile);
      if source.Err? { return source; }
      var removed := RemovePasswordFile();
      if removed.Err? { return Err(removed.error); }
      if !removed.value { return Err(NoFile); }
      r := source;
    }

    // ----- whole runs -----

    /** Get the key the way the profile asks for it. */
    method Open(password: string, allowFile: bool, generated: Key) returns (r: Result<Key, Failure>)
      requires Valid()
      modifies this`keyFile, this`keychain, this`steps, this`luck, this`key
      ensures Valid() && (old(key).Some? ==> key == old(key)) && (r.Ok? ==> key == Some(r.value))
      ensures old(key).Some? && (old(pw).Holds? ==> old(pw).value.password == password) ==>
          r == Ok(old(key).value) || r == Err(Crashed)
    {
      if pw.Holds? {
        r := UnlockWithPassword(password);
      } else {
        var loaded := LoadOrCreate(allowFile, generated);
        r := match loaded case Ok(found) => Ok(found.0) case Err(e) => Err(e);
      }
    }

    /** One session, cut off wherever its steps run out. */
    method RunSession(s: Session)
      requires Valid()
      modifies this
      ensures Valid() && (old(key).Some? ==> key == old(key))
    {
      Restart(s.steps, s.luck);
      if s.act.Migrate? {
        var _ := MigrateFileToKeychain();
        return;
      }
      var got := Open(s.password, s.allowFile, s.generated);
      if got.Err? { return; }
      match s.act
      case Protect(password) =>
        var _ := SetPassword(got.value, password);
      case Unprotect =>
        if pw.Holds? { var _ := RemovePassword(got.value, s.allowFile); }
      case _ =>
    }

    /** After any run of sessions, each cut off after any step and with any
        keychain or file operation failing, the key once stored is still the
        only one, and whoever knows the password in force, if there is one,
        gets it. */
    method RunThenOpen(sessions: seq<Session>, password: string, generated: Key) returns (r: Result<Key, Failure>)
      requires Valid()
      modifies this
      ensures Valid() && (old(key).Some? ==> key == old(key))
      ensures old(key).Some? && r.Ok? ==> r.value == old(key).value
      ensures old(key).Some? && (pw.Holds? ==> pw.value.password == password) ==>
          r == Ok(old(key).value) || r == Err(Crashed)
    {
      for i := 0 to |sessions|
        invariant Valid() && (old(key).Some? ==> key == old(key))
      {
        RunSession(sessions[i]);
      }
      r := Open(password, true, generated);
    }
  }

  /** A first start cut off between the creation of the key file and its
      contents. However often the program is started after that, however long
      it lasts and whatever fails, it finds a file that does not parse. */
  method TornForEver(first: Key, starts: seq<Session>)
    returns (profile: Profile, results: seq<Result<(Key, Source), Failure>>)
    ensures |results| == |starts| + 1 && results[0] == Err(Crashed)
    ensures forall i :: 1 <= i < |results| ==> results[i] == Err(Corrupt)
    ensures fresh(profile) && profile.Valid() && profile.key == None && profile.keyFile == Torn
  {
    profile := new Profile();
    profile.Restart(2, [false, true]);
    var r := profile.LoadOrCreate(true, first);
    results := [r];
    for i := 0 to |starts|
      invariant fresh(profile) && profile.Valid() && profile.key == None
      invariant profile.pw == Absent && profile.keychain == None && profile.keyFile == Torn
      invariant |results| == i + 1 && results[0] == Err(Crashed)
      invariant forall k :: 1 <= k < |results| ==> results[k] == Err(Corrupt)
    {
      profile.Restart(starts[i].steps, starts[i].luck);
      r := profile.LoadOrCreate(starts[i].allowFile, starts[i].generated);
      results := results + [r];
    }
  }

  datatype Act = JustOpen | Migrate | Protect(newPassword: string) | Unprotect

  /** What a session does, with the password its user types, how long it lasts and what fails. */
  datatype Session = Session(act: Act, password: string, allowFile: bool, generated: Key, steps: nat, luck: seq<bool>)
}
