/** `DacpacChecksumService`: derives a package's identity key and content
    fingerprint, and checks or records the pair in the target database. */
module DacpacChecksumService {
  import opened Wrappers
  import opened Encoding
  import opened Paths
  import opened XmlRewriter
  import opened PropertyStore

  /** What extracting a `.dacpac` yields: the bytes of `model.xml` and of
      `predeploy.sql` and `postdeploy.sql` when the archive has them. */
  datatype Package = Package(model: seq<byte>, predeploy: Option<seq<byte>>, postdeploy: Option<seq<byte>>)

  /** How `SqlConnection.OpenAsync` ends: it opens, it throws
      `InvalidOperationException` or `SqlException` (Unavailable), or it throws
      anything else, such as a cancellation (Aborted). */
  datatype OpenOutcome = Opened | Unavailable | Aborted

  /** The server a connection string reaches: whether `SqlConnectionStringBuilder`
      accepts the string, how opening ends, and whether SQL commands succeed. */
  datatype Target = Target(parses: bool, open: OpenOutcome, commandsSucceed: bool)

  /** The exceptions the operations let escape. */
  datatype Error =
    | MalformedConnectionString  // SqlConnectionStringBuilder throws
    | OpenFailed                 // InvalidOperationException or SqlException from OpenAsync
    | OpenAborted                // any other exception from OpenAsync
    | InvalidFileName            // ArgumentException: blank file name
    | FileNameTooLong            // ArgumentException: more than 128 characters
    | UnreadablePackage          // extraction or reading the archive fails
    | MalformedModel             // XmlDocument.LoadXml throws
    | CommandFailed              // the query or the upsert statement fails

  /** Everything the service reaches outside itself: the host's path rule, the
      XML library, SHA-256, and the servers connection strings lead to. */
  datatype Env = Env(
    isSeparator: SeparatorRule,
    xml: XmlIo,
    sha256: seq<byte> -> Digest,
    connect: string -> Target)

  const MaxKeyLength: nat := 128

  /** The identity key (`GetStringChecksum`). With `useFileName` it is the
      package's file name without directory or extension, refused when blank
      or longer than 128 UTF-16 code units; otherwise the hexadecimal SHA-256
      of the UTF-8 bytes of the path string itself. */
  function IdentityKey(path: string, useFileName: bool, env: Env): (r: Result<string, Error>)
    ensures useFileName ==> var stem := FileNameWithoutExtension(path, env.isSeparator);
      (IsBlank(stem) ==> r == Err(InvalidFileName))
      && (!IsBlank(stem) && Utf16Length(stem) > MaxKeyLength ==> r == Err(FileNameTooLong))
      && (r.Ok? <==> !IsBlank(stem) && Utf16Length(stem) <= MaxKeyLength)
      && (r.Ok? ==> r.value == stem && 1 <= |r.value| <= MaxKeyLength && NoSeparator(r.value, env.isSeparator))
    ensures !useFileName ==>
      r == Ok(Hex(env.sha256(Utf8(path)))) && |r.value| == 64 && IsUpperHex(r.value)
  {
    if useFileName then
      var result := FileNameWithoutExtension(path, env.isSeparator);
      if IsBlank(result) then Err(InvalidFileName)
      else if Utf16Length(result) > MaxKeyLength then Err(FileNameTooLong)
      else Ok(result)
    else
      var checksum := env.sha256(Utf8(path));
      HexIsBitConverterWithoutDashes(checksum);
      Ok(RemoveDashes(BitConverterString(checksum)))
  }

  /** The bytes hashed: the (normalised) model, then the pre-deployment script
      if present, then the post-deployment script if present. */
  function HashInput(model: seq<byte>, pkg: Package): (r: seq<byte>)
    ensures |r| == |model| + (if pkg.predeploy.Some? then |pkg.predeploy.value| else 0)
                           + (if pkg.postdeploy.Some? then |pkg.postdeploy.value| else 0)
    ensures r[..|model|] == model
  {
    model
    + (if pkg.predeploy.Some? then pkg.predeploy.value else [])
    + (if pkg.postdeploy.Some? then pkg.postdeploy.value else [])
  }

  /** The fingerprint `GetChecksumAsync` computes for the package (None when
      the archive cannot be read). */
  function Fingerprint(pkg: Option<Package>, env: Env): (r: Result<string, Error>)
    ensures r.Ok? ==> |r.value| == 64 && IsUpperHex(r.value)
  {
    if pkg.None? then Err(UnreadablePackage)
    else match NormalizedModel(pkg.value.model, env.xml, env.isSeparator)
      case None => Err(MalformedModel)
      case Some(model) => Ok(Hex(env.sha256(HashInput(model, pkg.value))))
  }

  /** `GetChecksumAsync`: rewrite `model.xml`, read it, append the scripts that
      exist, hash, and format the digest with `BitConverter`. */
  method GetChecksum(pkg: Option<Package>, env: Env) returns (r: Result<string, Error>)
    ensures r == Fingerprint(pkg, env)
  {
    if pkg.None? {
      return Err(UnreadablePackage);
    }
    var package := pkg.value;
    var rewritten := RewriteXmlMetadata(package.model, env.xml, env.isSeparator);
    if rewritten.None? {
      return Err(MalformedModel);
    }
    var bytes := rewritten.value;
    if package.predeploy.Some? {
      bytes := bytes + package.predeploy.value;
    }
    if package.postdeploy.Some? {
      bytes := bytes + package.postdeploy.value;
    }
    assert bytes == HashInput(rewritten.value, package);
    var checksum := env.sha256(bytes);
    HexIsBitConverterWithoutDashes(checksum);
    return Ok(RemoveDashes(BitConverterString(checksum)));
  }

  /** What `CheckIfDeployedAsync` returns against a store holding `stored`. */
  function CheckOutcome(env: Env, path: string, pkg: Option<Package>, connectionString: string,
                        useFileName: bool, stored: map<string, string>): Result<bool, Error>
  {
    var target := env.connect(connectionString);
    if !target.parses then Err(MalformedConnectionString)
    else match target.open
      case Unavailable => Ok(false)
      case Aborted => Err(OpenAborted)
      case Opened =>
        match IdentityKey(path, useFileName, env)
        case Err(e) => Err(e)
        case Ok(id) =>
          match Fingerprint(pkg, env)
          case Err(e) => Err(e)
          case Ok(checksum) =>
            if !target.commandsSucceed then Err(CommandFailed)
            else Ok(id in stored && stored[id] == checksum)
  }

  /** What `SetChecksumAsync` returns, and the store contents afterwards. */
  function MarkOutcome(env: Env, path: string, pkg: Option<Package>, connectionString: string,
                       useFileName: bool, stored: map<string, string>): (Result<(), Error>, map<string, string>)
  {
    var target := env.connect(connectionString);
    if !target.parses then (Err(MalformedConnectionString), stored)
    else match IdentityKey(path, useFileName, env)
      case Err(e) => (Err(e), stored)
      case Ok(id) =>
        match Fingerprint(pkg, env)
        case Err(e) => (Err(e), stored)
        case Ok(checksum) =>
          match target.open
          case Unavailable => (Err(OpenFailed), stored)
          case Aborted => (Err(OpenAborted), stored)
          case Opened =>
            if !target.commandsSucceed then (Err(CommandFailed), stored)
            else (Ok(()), stored[id := checksum])
  }

  /** `CheckIfDeployedAsync`: open first, treating an unavailable database as
      "not deployed"; then key, fingerprint and the query. */
  method CheckIfDeployed(path: string, pkg: Option<Package>, connectionString: string,
                         useFileName: bool, env: Env, store: Store) returns (deployed: Result<bool, Error>)
    requires store.Valid()
    ensures deployed == CheckOutcome(env, path, pkg, connectionString, useFileName, store.Contents())
  {
    var target := env.connect(connectionString);
    if !target.parses {
      return Err(MalformedConnectionString);
    }
    if target.open == Unavailable {
      return Ok(false);
    } else if target.open == Aborted {
      return Err(OpenAborted);
    }
    var id :- IdentityKey(path, useFileName, env);
    var checksum :- GetChecksum(pkg, env);
    if !target.commandsSucceed {
      return Err(CommandFailed);
    }
    return Ok(store.Exists(id, checksum));
  }

  /** `SetChecksumAsync`: key and fingerprint first, then open and upsert;
      every failure propagates. */
  method SetChecksum(path: string, pkg: Option<Package>, connectionString: string,
                     useFileName: bool, env: Env, store: Store) returns (r: Result<(), Error>)
    requires store.Valid()
    modifies store
    ensures store.Valid()
    ensures (r, store.Contents()) == MarkOutcome(env, path, pkg, connectionString, useFileName, old(store.Contents()))
  {
    var target := env.connect(connectionString);
    if !target.parses {
      return Err(MalformedConnectionString);
    }
    var id :- IdentityKey(path, useFileName, env);
    var checksum :- GetChecksum(pkg, env);
    if target.open == Unavailable {
      return Err(OpenFailed);
    } else if target.open == Aborted {
      return Err(OpenAborted);
    }
    if !target.commandsSucceed {
      return Err(CommandFailed);
    }
    store.Upsert(id, checksum);
    return Ok(());
  }

  // ---------------------------------------------------------------------------
  // Properties of the check-then-upsert protocol

  /** Mark succeeds exactly when every stage does, writes only its own key, and
      leaves the store alone whenever it fails. */
  lemma MarkEffect(env: Env, path: string, pkg: Option<Package>, cs: string, useFileName: bool,
                   stored: map<string, string>)
    ensures var (r, after) := MarkOutcome(env, path, pkg, cs, useFileName, stored);
      var target := env.connect(cs);
      (r.Ok? <==> target.parses && target.open == Opened && target.commandsSucceed
                  && IdentityKey(path, useFileName, env).Ok? && Fingerprint(pkg, env).Ok?)
      && (r.Ok? ==> after == stored[IdentityKey(path, useFileName, env).value := Fingerprint(pkg, env).value])
      && (r.Err? ==> after == stored)
  {
  }

  /** A later Check of the same package, with the same arguments, reports it
      deployed after a successful Mark, provided the server it reaches then
      (`later`, which may differ from the one Mark reached) opens and runs the
      query. */
  lemma MarkThenCheck(env: Env, later: string -> Target, path: string, pkg: Option<Package>, cs: string,
                      useFileName: bool, stored: map<string, string>)
    requires MarkOutcome(env, path, pkg, cs, useFileName, stored).0.Ok?
    requires later(cs) == Target(true, Opened, true)
    ensures CheckOutcome(env.(connect := later), path, pkg, cs, useFileName,
                         MarkOutcome(env, path, pkg, cs, useFileName, stored).1) == Ok(true)
  {
    MarkEffect(env, path, pkg, cs, useFileName, stored);
    SameKeyAndFingerprint(env, later, path, pkg, useFileName);
  }

  /** Marking a rebuilt package at the same path replaces the earlier
      fingerprint: afterwards only the newer package counts as deployed, for
      any later Check that reaches a working server. */
  lemma MarkTwiceReplaces(env: Env, later: string -> Target, path: string, pkg1: Option<Package>,
                          pkg2: Option<Package>, cs: string, useFileName: bool, stored: map<string, string>)
    requires Fingerprint(pkg1, env).Ok? && Fingerprint(pkg2, env).Ok?
    requires Fingerprint(pkg1, env) != Fingerprint(pkg2, env)
    requires MarkOutcome(env, path, pkg1, cs, useFileName, stored).0.Ok?
    requires later(cs) == Target(true, Opened, true)
    ensures var s1 := MarkOutcome(env, path, pkg1, cs, useFileName, stored).1;
      var (r2, s2) := MarkOutcome(env, path, pkg2, cs, useFileName, s1);
      r2.Ok?
      && CheckOutcome(env.(connect := later), path, pkg1, cs, useFileName, s2) == Ok(false)
      && CheckOutcome(env.(connect := later), path, pkg2, cs, useFileName, s2) == Ok(true)
  {
    var s1 := MarkOutcome(env, path, pkg1, cs, useFileName, stored).1;
    MarkEffect(env, path, pkg1, cs, useFileName, stored);
    MarkEffect(env, path, pkg2, cs, useFileName, s1);
    SameKeyAndFingerprint(env, later, path, pkg1, useFileName);
    SameKeyAndFingerprint(env, later, path, pkg2, useFileName);
  }

  /** The key and the fingerprint do not depend on the server. */
  lemma SameKeyAndFingerprint(env: Env, later: string -> Target, path: string, pkg: Option<Package>,
                              useFileName: bool)
    ensures IdentityKey(path, useFileName, env.(connect := later)) == IdentityKey(path, useFileName, env)
    ensures Fingerprint(pkg, env.(connect := later)) == Fingerprint(pkg, env)
  {
  }

  /** Check only says "deployed" when the store holds this key with this very fingerprint. */
  lemma DeployedOnlyIfRecorded(env: Env, path: string, pkg: Option<Package>, cs: string, useFileName: bool,
                               stored: map<string, string>)
    ensures CheckOutcome(env, path, pkg, cs, useFileName, stored) == Ok(true) <==>
      var target, id, checksum := env.connect(cs), IdentityKey(path, useFileName, env), Fingerprint(pkg, env);
      target.parses && target.open == Opened && target.commandsSucceed && id.Ok? && checksum.Ok?
      && id.value in stored && stored[id.value] == checksum.value
  {
  }

  /** Check is fail-open only when opening the connection reports the database
      unavailable, and then neither the key nor the fingerprint matters. */
  lemma CheckFailOpen(env: Env, path: string, pkg: Option<Package>, cs: string, useFileName: bool,
                      stored: map<string, string>)
    requires env.connect(cs).parses && env.connect(cs).open == Unavailable
    ensures CheckOutcome(env, path, pkg, cs, useFileName, stored) == Ok(false)
    ensures CheckOutcome(env, path, None, cs, useFileName, map[]) == Ok(false)
  {
  }

  /** An unusable file-name key fails Mark before any connection is attempted,
      whatever the server would have done, and nothing is written. */
  lemma InvalidKeyFailsBeforeConnecting(env: Env, path: string, pkg: Option<Package>, cs: string,
                                        stored: map<string, string>)
    requires env.connect(cs).parses
    requires IdentityKey(path, true, env).Err?
    ensures MarkOutcome(env, path, pkg, cs, true, stored) == (Err(IdentityKey(path, true, env).error), stored)
  {
  }

  /** Mark is fail-closed: if the connection does not open, it reports an error. */
  lemma MarkFailClosed(env: Env, path: string, pkg: Option<Package>, cs: string, useFileName: bool,
                       stored: map<string, string>)
    requires env.connect(cs).open != Opened
    ensures MarkOutcome(env, path, pkg, cs, useFileName, stored).0.Err?
    ensures MarkOutcome(env, path, pkg, cs, useFileName, stored).1 == stored
  {
  }

  // ---------------------------------------------------------------------------
  // Properties of the fingerprint and the key

  lemma {:induction false} AppendCancel(a: seq<byte>, b: seq<byte>, c: seq<byte>, d: seq<byte>)
    requires a + b + c == a + d + c
    ensures b == d
  {
    assert |b| == |d|;
    forall i | 0 <= i < |b| ensures b[i] == d[i] {
      assert (a + b + c)[|a| + i] == b[i];
      assert (a + d + c)[|a| + i] == d[i];
    }
  }

  /** Changing only the pre-deployment script changes the bytes hashed, so the
      two fingerprints agree only if SHA-256 collides on them. */
  lemma PredeployChangesFingerprint(env: Env, model: seq<byte>, pre1: seq<byte>, pre2: seq<byte>,
                                    post: Option<seq<byte>>)
    requires pre1 != pre2
    requires NormalizedModel(model, env.xml, env.isSeparator).Some?
    ensures var p1, p2 := Package(model, Some(pre1), post), Package(model, Some(pre2), post);
      var m := NormalizedModel(model, env.xml, env.isSeparator).value;
      HashInput(m, p1) != HashInput(m, p2)
      && (Fingerprint(Some(p1), env) == Fingerprint(Some(p2), env) ==>
            env.sha256(HashInput(m, p1)) == env.sha256(HashInput(m, p2)))
  {
    var p1, p2 := Package(model, Some(pre1), post), Package(model, Some(pre2), post);
    var m := NormalizedModel(model, env.xml, env.isSeparator).value;
    var tail := if post.Some? then post.value else [];
    if HashInput(m, p1) == HashInput(m, p2) {
      AppendCancel(m, pre1, tail, pre2);
    }
    if Fingerprint(Some(p1), env) == Fingerprint(Some(p2), env) {
      HexInjective(env.sha256(HashInput(m, p1)), env.sha256(HashInput(m, p2)));
    }
  }

  /** A script that is absent contributes nothing: no scripts means the model alone is hashed. */
  lemma AbsentScriptsContributeNothing(model: seq<byte>)
    ensures HashInput(model, Package(model, None, None)) == model
  {
  }

  /** Two builds whose models normalise to the same document, with the same
      scripts, get the same fingerprint: the build path no longer matters. */
  lemma FingerprintPathIndependent(env: Env, pkg1: Package, pkg2: Package, doc1: Document, doc2: Document)
    requires pkg1.predeploy == pkg2.predeploy && pkg1.postdeploy == pkg2.postdeploy
    requires HasMarker(env.xml.readText(pkg1.model)) && env.xml.load(env.xml.readText(pkg1.model)) == Some(doc1)
    requires HasMarker(env.xml.readText(pkg2.model)) && env.xml.load(env.xml.readText(pkg2.model)) == Some(doc2)
    requires Normalized(doc1, env.isSeparator) == Normalized(doc2, env.isSeparator)
    ensures Fingerprint(Some(pkg1), env) == Fingerprint(Some(pkg2), env)
    ensures Fingerprint(Some(pkg1), env).Ok?
  {
  }

  lemma UnixFileNameExample(isSep: SeparatorRule)
    requires forall c :: isSep(c) <==> c == '/'
    ensures FileName("/build/out/MyDb.dacpac", isSep) == "MyDb.dacpac"
  {
    var path, name := "/build/out/MyDb.dacpac", "MyDb.dacpac";
    assert path[|path| - |name|..] == name;
    assert isSep(path[|path| - |name| - 1]);
    FileNameUnique(path, isSep, name);
  }

  lemma StemExample()
    ensures WithoutExtension("MyDb.dacpac") == "MyDb"
  {
    var name := "MyDb.dacpac";
    var stem := WithoutExtension(name);
    assert stem == name[..4];
  }

  /** Mode A on `/build/out/MyDb.dacpac` with Unix separators gives `MyDb`. */
  lemma FileNameKeyExample(env: Env)
    requires forall c :: env.isSeparator(c) <==> c == '/'
    ensures IdentityKey("/build/out/MyDb.dacpac", true, env) == Ok("MyDb")
  {
    UnixFileNameExample(env.isSeparator);
    StemExample();
    assert !IsWhiteSpace("MyDb"[0]);
  }
}
