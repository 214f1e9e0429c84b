# DacDeploySkip, modelled in Dafny

DacDeploySkip decides whether a `.dacpac` package has already been deployed to
a SQL Server database, and records a deployment. It stores one record per
package in the database's own extended properties. The record's name is an
*identity key*: either the package's file name, or a SHA-256 digest of its
path. The record's value is a *fingerprint*: the SHA-256 of the package's
`model.xml`, followed by `predeploy.sql` and `postdeploy.sql` when present.
Before hashing, `model.xml` is normalised: the `FileName` and
`AssemblySymbolsName` metadata values lose their build-machine directories.

The model has seven modules, one per source file or component:

- `Wrappers` holds `Option` and `Result`; `Result` is used with `:-` for the exceptions that escape.
- `Encoding` declares bytes as a `byte` newtype over 0..255. It holds the upper-case hex form (written both directly and as `BitConverter.ToString` minus the dashes), UTF-8 encoding, and the UTF-16 length that `string.Length` reports.
- `Paths` holds `Path.GetFileName`, `Path.GetFileNameWithoutExtension` and `string.IsNullOrWhiteSpace`. The path functions take the host's directory-separator rule as a parameter.
- `XmlRewriter` is the metadata normaliser. It has the ordinal fast-path probe, the `ReplaceValue` guard, and the loop over `Metadata` nodes. A parsed document is the parser's whole node sequence, including text and the ends of elements. The loop is a method that rewrites an array of nodes in place.
- `PropertyStore` models the extended properties as a class whose field is a sequence of (name, value) rows with unique names. `Contents()` is the map view of the rows. `Exists` reads the first matching row, as `ExecuteScalar` does. `Upsert` updates the row if the name exists and adds one otherwise.
- `DacpacChecksumService` holds key derivation, the fingerprint, and the two orchestrations as methods. `CheckOutcome` and `MarkOutcome` specify the methods, and the protocol lemmas are stated over them.
- `Program` holds argument dispatch and the exit code.

SHA-256, the XML parser and serialiser, file reading, and the servers behind
connection strings are parameters gathered in `Env` and `XmlIo`. A digest is
a 32-byte subset type. A package is the bytes of its three files.

Three behaviours of the code are easy to misread, and the model keeps them as written:

- `CheckIfDeployedAsync` parses the connection string before its `try`. A malformed connection string therefore propagates; it is not treated as "not deployed". Only `InvalidOperationException` and `SqlException` from `OpenAsync` give `false`.
- `SetChecksumAsync` derives the key and the fingerprint before it opens the connection.
- The fast-path probe is `<Metadata Name="FileName" ` with the leading tag and the trailing space, not just `Name="FileName"`.

## Model

| member | source | states |
|---|---|---|
| `Encoding.Hex` | src/DacDeploySkip/DacpacChecksumService.cs:119 | two upper-case hex digits per byte, no separators: length is twice the byte count |
| `Encoding.UnhexHex` | src/DacDeploySkip/DacpacChecksumService.cs:119 | reading the digit pairs back gives the original bytes |
| `Encoding.HexInjective` | src/DacDeploySkip/DacpacChecksumService.cs:119 | different digests give different fingerprints |
| `Encoding.BitConverterString` | src/DacDeploySkip/DacpacChecksumService.cs:119 | `BitConverter.ToString` joins n byte pairs with dashes: 3n-1 characters |
| `Encoding.RemoveDashes` | src/DacDeploySkip/DacpacChecksumService.cs:119 | `Replace("-", "")` leaves no dash and never lengthens |
| `Encoding.HexIsBitConverterWithoutDashes` | src/DacDeploySkip/DacpacChecksumService.cs:145 | `BitConverter.ToString(..).Replace("-", "")` is exactly the separator-free upper-case hex |
| `Encoding.DigestHexLength` | src/DacDeploySkip/DacpacChecksumService.cs:119 | a 32-byte digest gives a 64-character upper-case hex string |
| `Encoding.Utf8` | src/DacDeploySkip/DacpacChecksumService.cs:141 | UTF-8 takes one to four bytes per character |
| `Encoding.Utf16Length` | src/DacDeploySkip/DacpacChecksumService.cs:133 | `string.Length` counts one or two UTF-16 units per character |
| `Paths.FileName` | src/DacDeploySkip/XmlRewriter.cs:54-55 | the result is the suffix after the last separator: it holds no separator and is the whole value or preceded by a separator |
| `Paths.FileNameUnique` | src/DacDeploySkip/XmlRewriter.cs:55 | those three facts determine the file name |
| `Paths.FileNameOfBareName` | src/DacDeploySkip/XmlRewriter.cs:55 | a value without separators is left unchanged |
| `Paths.FileNameAfterDirectory` | src/DacDeploySkip/XmlRewriter.cs:55 | whatever directory ends in a separator, the name after it is the file name |
| `Paths.FileNameIdempotent` | src/DacDeploySkip/XmlRewriter.cs:55 | the file name of a file name is itself |
| `Paths.WithoutExtension` | src/DacDeploySkip/DacpacChecksumService.cs:127 | cuts at the last '.', which leaves a prefix, or keeps a name with no '.' |
| `Paths.IsWhiteSpace` | src/DacDeploySkip/DacpacChecksumService.cs:128 | the characters `char.IsWhiteSpace` accepts: U+0009 to U+000D, U+0020, U+0085, U+00A0 and the Zs, Zl and Zp separators |
| `Paths.IsBlank` | src/DacDeploySkip/DacpacChecksumService.cs:128 | `string.IsNullOrWhiteSpace` on a non-null string: every character is white space, so the empty string is blank |
| `Paths.FileNameWithoutExtension` | src/DacDeploySkip/DacpacChecksumService.cs:127 | the stem has no separator and is no longer than the file name |
| `XmlRewriter.HasMarker` | src/DacDeploySkip/XmlRewriter.cs:19-20 | the slow path is taken exactly when one of the two exact markers occurs somewhere in the text |
| `XmlRewriter.Qualifies` | src/DacDeploySkip/XmlRewriter.cs:49-52 | the guard: exactly two attributes, the first named `Name` with the key as its value |
| `XmlRewriter.IndexOf` | src/DacDeploySkip/XmlRewriter.cs:19-20 | ordinal search: the first occurrence, or -1 exactly when the pattern occurs nowhere |
| `XmlRewriter.ReplaceValue` | src/DacDeploySkip/XmlRewriter.cs:47-56 | a non-qualifying element is unchanged; a qualifying one keeps its tag, text, attribute names and first attribute, and its second value becomes `FileName` of the old value, so it has no separator |
| `XmlRewriter.RewriteNodes` | src/DacDeploySkip/XmlRewriter.cs:30-40 | the in-place loop leaves every `Metadata` element rewritten by both calls and every other node as it was |
| `XmlRewriter.RewriteXmlMetadata` | src/DacDeploySkip/XmlRewriter.cs:13-45 | returns the file itself on the fast path, nothing when parsing fails, else the saved normalised document (`NormalizedModel`) |
| `XmlRewriter.FastPathUnchanged` | src/DacDeploySkip/XmlRewriter.cs:19-23 | text with neither marker is returned byte for byte |
| `XmlRewriter.AtMostOneReplacement` | src/DacDeploySkip/XmlRewriter.cs:37-56 | the first call never changes what the second call's guard reads, and at most one call fires |
| `XmlRewriter.NormalizedFrame` | src/DacDeploySkip/XmlRewriter.cs:30-56 | same node count, and each node keeps its tag, text, attribute count and names, and first value; nodes that do not qualify are unchanged; a qualifying value becomes its file name |
| `XmlRewriter.AttributelessUnchanged` | src/DacDeploySkip/XmlRewriter.cs:32-35 | elements without attributes pass through |
| `XmlRewriter.NoSeparatorRemains` | Test/RewriteTest.cs:25-36 | after the rewrite no qualifying element's value holds a directory separator |
| `XmlRewriter.NormalizedNodeIdempotent` | src/DacDeploySkip/XmlRewriter.cs:30-40 | running both calls on a node the loop already rewrote changes nothing |
| `XmlRewriter.NormalizedIdempotent` | src/DacDeploySkip/XmlRewriter.cs:55 | rewriting a rewritten document changes nothing |
| `XmlRewriter.NormalizedModelIdempotent` | src/DacDeploySkip/XmlRewriter.cs:13-45 | when the saved document reads back as itself, rewriting the saved file again gives the same file |
| `XmlRewriter.NormalizedMetadataElement` | src/DacDeploySkip/XmlRewriter.cs:47-56 | a recognised two-attribute element keeps its key and gets the file name of its value |
| `XmlRewriter.BuildDirectoryDropped` | src/DacDeploySkip/XmlRewriter.cs:47-56 | one assembly built under two directories gives the same normalised element, valued with the bare name |
| `XmlRewriter.WindowsBuildPathsNormalizeAlike` | src/DacDeploySkip/XmlRewriter.cs:55 | with Windows separators, `C:\ci\App.dll` and `D:\agent\App.dll` both become `App.dll` |
| `XmlRewriter.UnixKeepsBackslashPaths` | src/DacDeploySkip/XmlRewriter.cs:55 | with '/' as the only separator, `C:\ci\App.dll` is kept whole |
| `PropertyStore.FirstMatch` | src/DacDeploySkip/DacpacChecksumService.cs:151-161 | the scalar is a true bit when some row has that name and value, and null otherwise |
| `PropertyStore.MatchIffStored` | src/DacDeploySkip/DacpacChecksumService.cs:151-161 | with one row per name, a matching row exists iff the map holds that value under that name |
| `PropertyStore.UpdateValue` | src/DacDeploySkip/DacpacChecksumService.cs:173 | every row keeps its name; rows with that name get the new value, the others are unchanged |
| `PropertyStore.UpdateValueMap` | src/DacDeploySkip/DacpacChecksumService.cs:173 | updating an existing name keeps names unique and changes only that entry of the map |
| `PropertyStore.AppendMap` | src/DacDeploySkip/DacpacChecksumService.cs:177 | adding a new name keeps names unique and adds only that entry |
| `PropertyStore.Store.Exists` | src/DacDeploySkip/DacpacChecksumService.cs:149-162 | true iff the store maps the name to exactly the expected value; a null scalar gives false |
| `PropertyStore.Store.Upsert` | src/DacDeploySkip/DacpacChecksumService.cs:164-184 | afterwards the name maps to the value and every other name keeps its value; an existing name is updated, not duplicated |
| `DacpacChecksumService.IdentityKey` | src/DacDeploySkip/DacpacChecksumService.cs:123-147 | mode A: the stem, refused when blank, then when over 128 UTF-16 units; a result has 1 to 128 characters. Mode B: the 64-digit hex SHA-256 of the path's UTF-8 bytes |
| `DacpacChecksumService.Fingerprint` | src/DacDeploySkip/DacpacChecksumService.cs:76-121 | a fingerprint is 64 upper-case hex digits |
| `DacpacChecksumService.HashInput` | src/DacDeploySkip/DacpacChecksumService.cs:87-103 | the model bytes come first, and the length is the model's plus that of each script present |
| `DacpacChecksumService.GetChecksum` | src/DacDeploySkip/DacpacChecksumService.cs:76-121 | hashes the normalised model, then predeploy if present, then postdeploy if present |
| `DacpacChecksumService.CheckIfDeployed` | src/DacDeploySkip/DacpacChecksumService.cs:18-50 | parse the connection string, open (unavailable gives false), key, fingerprint, query, as `CheckOutcome` specifies |
| `DacpacChecksumService.SetChecksum` | src/DacDeploySkip/DacpacChecksumService.cs:52-68 | parse, key, fingerprint, open, upsert, every error propagating, as `MarkOutcome` specifies |
| `DacpacChecksumService.MarkEffect` | src/DacDeploySkip/DacpacChecksumService.cs:52-68 | Mark succeeds iff every stage does; it then writes only key := fingerprint, and on failure the store is unchanged |
| `DacpacChecksumService.MarkThenCheck` | src/DacDeploySkip/DacpacChecksumService.cs:56-64 | after a successful Mark, a Check with the same arguments returns true whenever the server it reaches then opens and runs the query |
| `DacpacChecksumService.MarkTwiceReplaces` | src/DacDeploySkip/DacpacChecksumService.cs:164-184 | Mark F1 then Mark F2: a later Check that reaches a working server gives false for F1 and true for F2 |
| `DacpacChecksumService.DeployedOnlyIfRecorded` | src/DacDeploySkip/DacpacChecksumService.cs:35-48 | Check gives true iff every stage succeeds and the store holds this key with this fingerprint |
| `DacpacChecksumService.CheckFailOpen` | src/DacDeploySkip/DacpacChecksumService.cs:22-33 | an unavailable database gives false, whatever the package or the key |
| `DacpacChecksumService.InvalidKeyFailsBeforeConnecting` | src/DacDeploySkip/DacpacChecksumService.cs:54-62 | an invalid mode-A key fails Mark with that error whatever the server does, and writes nothing |
| `DacpacChecksumService.MarkFailClosed` | src/DacDeploySkip/DacpacChecksumService.cs:60-62 | a connection that does not open makes Mark fail and leaves the store unchanged |
| `DacpacChecksumService.PredeployChangesFingerprint` | src/DacDeploySkip/DacpacChecksumService.cs:87-103 | changing only the predeploy bytes changes the hashed bytes; equal fingerprints then need a SHA-256 collision |
| `DacpacChecksumService.AbsentScriptsContributeNothing` | src/DacDeploySkip/DacpacChecksumService.cs:87-103 | without scripts the model alone is hashed |
| `DacpacChecksumService.FingerprintPathIndependent` | src/DacDeploySkip/DacpacChecksumService.cs:82-107 | two builds whose models normalise alike, with equal scripts, get equal fingerprints |
| `DacpacChecksumService.FileNameKeyExample` | src/DacDeploySkip/DacpacChecksumService.cs:125-138 | mode A on `/build/out/MyDb.dacpac` gives `MyDb` |
| `Program.EqualsIgnoreCase` | src/DacDeploySkip/Program.cs:15 | equal lengths and equal characters after upper-casing ASCII letters |
| `Program.UseFileName` | src/DacDeploySkip/Program.cs:14-18 | the flag is only ever set by a fourth argument |
| `Program.ParseArgs` | src/DacDeploySkip/Program.cs:12-31 | `check`/`mark` exactly, with 3 or 4 arguments; argument 1 is the path, argument 2 the connection string; the flag iff a 4th argument equals `-namekey` ignoring case |
| `Program.CheckExitCode` | src/DacDeploySkip/Program.cs:20-22 | exit 0 iff deployed, 1 iff not; errors propagate |
| `Program.MarkExitCode` | src/DacDeploySkip/Program.cs:33-34 | exit 0 iff the service completes; errors propagate |
| `Program.RunOutcome` | src/DacDeploySkip/Program.cs:8-45 | exit code 0 or 1; usage is 1 and changes nothing; check never writes; mark never exits 1 |
| `Program.Run` | src/DacDeploySkip/Program.cs:8-45 | `Main` dispatches and maps outcomes as `RunOutcome` specifies |
| `Program.WrongArityIsUsage` | src/DacDeploySkip/Program.cs:37-43 | any argument count other than 3 or 4 gives usage |
| `Program.SubcommandIsCaseSensitive` | src/DacDeploySkip/Program.cs:12 | `Check` and `MARK` give usage |
| `Program.FlagIgnoresCase` | src/DacDeploySkip/Program.cs:15 | `-NameKey` selects the file-name key |
| `Program.UnknownFlagIgnored` | src/DacDeploySkip/Program.cs:15 | an unrecognised fourth argument is ignored: no usage error, path-digest key |

## Left out

- SHA-256 is a parameter that returns 32 bytes; its internals are not modelled.
- `XmlDocument.LoadXml` and `Save` are parameters. Parsing yields the whole tree flattened in document order, or fails. Text, comments and the ends of elements are nodes that are not `Metadata`, so the rewrite passes them through. The byte formatting `Save` chooses is not modelled.
- `File.ReadAllText` decoding of `model.xml` is a parameter.
- Zip extraction, the temporary directory and its best-effort deletion are left out as file-system I/O. A package is the bytes of its three files, and an unreadable archive is an error.
- The `node.Attributes == null` test is not a branch of the model: the nodes `GetElementsByTagName` returns are elements, and their attribute collection is never null. An element without attributes falls through both guards instead.
- The SQL machinery is replaced by a connection-string outcome (parses or not), an open outcome (opened, unavailable, other exception) and a single "commands succeed" flag. This covers `SqlConnectionStringBuilder`, `SqlConnection`, `fn_listextendedproperty`, `sp_addextendedproperty` / `sp_updateextendedproperty` and parameter types. A failed statement leaves the store unchanged.
- A server's behaviour is a function of the connection string within one `Env`, so two calls with the same `Env` reach a server that behaves the same. Lemmas that relate a Mark to a later Check therefore give the Check its own connection behaviour.
- PropertyStore.Store.Upsert: names are compared exactly. Under a case-insensitive database collation, the `IF EXISTS` test and `sp_updateextendedproperty` would update an existing row whose name differs only in case, for example a mode-A Mark of `mydb` after `MyDb`. The model adds a second row instead, and `MarkTwiceReplaces` inherits this.
- PropertyStore.Store.Exists: names and values are compared exactly; a case-insensitive database collation, which would also match names differing in case, is not modelled.
- The unguarded race between two concurrent Mark calls on the same key is cross-process concurrency and is not modelled: each Mark is one atomic step.
- `async`/`await`, `CancellationToken` (apart from a cancelled open, which is the "other exception" outcome) and all console output are left out. The database name read from the connection string only feeds messages.
- Paths.FileName: the Windows rule that also strips a drive prefix with no separator (`C:App.dll`) is not modelled; the host's rule is a separator predicate.
- Program.EqualsIgnoreCase: folds ASCII letters only; non-ASCII characters whose invariant upper case is an ASCII letter are not modelled.
- Encoding.Utf8: Dafny characters are Unicode scalar values, so a path holding an unpaired UTF-16 surrogate (encoded by .NET as U+FFFD) is not modelled.
