/** The metadata normaliser: makes a package's `model.xml` independent of the
    build machine by cutting the `FileName` and `AssemblySymbolsName` metadata
    values down to their last path segment. */
module XmlRewriter {
  import opened Wrappers
  import opened Encoding
  import opened Paths

  datatype Attribute = Attribute(name: string, value: string)

  /** One entry of a parsed tree. An element's start is its tag and attributes;
      every other part of the tree is an entry whose tag is the node name .NET
      gives it (`#text`, `#comment`, `#cdata-section`, `#whitespace`), with its
      characters in `text`, or, for the end of an element, `/` followed by its
      tag. An end entry's `text` records how the element is closed: empty for
      an element `XmlElement.IsEmpty` marks, written `<a/>`, and the closing
      tag `</a>` otherwise. No such tag is `Metadata`. */
  datatype Node = Node(tag: string, attributes: seq<Attribute>, text: string)

  /** A parsed document: its whole tree flattened in document order, each
      element's start followed by its children and then its end entry. Text,
      nesting and comments are therefore part of the document that `save`
      serialises; the rewrite passes them through unchanged. */
  type Document = seq<Node>

  /** The foreign XML machinery: `File.ReadAllText`, `XmlDocument.LoadXml`
      (None when it throws) and `XmlDocument.Save` followed by reading the bytes back. */
  datatype XmlIo = XmlIo(
    readText: seq<byte> -> string,
    load: string -> Option<Document>,
    save: Document -> seq<byte>)

  const FileKey: string := "FileName"
  const SymbolsKey: string := "AssemblySymbolsName"
  const MetadataTag: string := "Metadata"

  /** The fast-path probe: the opening of a metadata element whose first attribute is `Name="key"`. */
  function Marker(key: string): string { "<Metadata Name=\"" + key + "\" " }

  predicate OccursAt(text: string, pattern: string, i: int) {
    0 <= i && i + |pattern| <= |text| && text[i..i + |pattern|] == pattern
  }

  /** Ordinal `IndexOf`: the first position where `pattern` occurs, or -1. */
  function IndexOf(text: string, pattern: string): (r: int)
    ensures -1 <= r
    ensures 0 <= r ==> OccursAt(text, pattern, r)
    ensures 0 <= r ==> forall j :: 0 <= j < r ==> !OccursAt(text, pattern, j)
    ensures r < 0 ==> forall j :: !OccursAt(text, pattern, j)
    decreases |text|
  {
    if |text| < |pattern| then -1
    else if text[..|pattern|] == pattern then 0
    else
      assert !OccursAt(text, pattern, 0) by { assert text[0..|pattern|] == text[..|pattern|]; }
      var k := IndexOf(text[1..], pattern);
      assert forall j {:trigger OccursAt(text, pattern, j)} :: 1 <= j ==>
        (OccursAt(text[1..], pattern, j - 1) <==> OccursAt(text, pattern, j));
      if k < 0 then -1 else k + 1
  }

  /** The text mentions one of the two recognised metadata entries. */
  predicate HasMarker(text: string)
    ensures HasMarker(text) <==>
      (exists j :: OccursAt(text, Marker(FileKey), j)) || (exists j :: OccursAt(text, Marker(SymbolsKey), j))
  {
    IndexOf(text, Marker(FileKey)) >= 0 || IndexOf(text, Marker(SymbolsKey)) >= 0
  }

  /** The guard of `ReplaceValue`: exactly two attributes, the first named `Name` with value `key`. */
  predicate Qualifies(key: string, e: Node) {
    |e.attributes| == 2 && e.attributes[0].name == "Name" && e.attributes[0].value == key
  }

  /** An element the loop rewrites. */
  predicate Rewritable(e: Node) {
    e.tag == MetadataTag && (Qualifies(FileKey, e) || Qualifies(SymbolsKey, e))
  }

  /** `ReplaceValue`: when the guard holds, the second attribute keeps only its file name. */
  function ReplaceValue(key: string, e: Node, isSep: SeparatorRule): (r: Node)
    ensures r.tag == e.tag && r.text == e.text && |r.attributes| == |e.attributes|
    ensures forall j :: 0 <= j < |e.attributes| ==> r.attributes[j].name == e.attributes[j].name
    ensures !Qualifies(key, e) ==> r == e
    ensures Qualifies(key, e) ==>
      r.attributes[0] == e.attributes[0]
      && r.attributes[1].value == FileName(e.attributes[1].value, isSep)
      && NoSeparator(r.attributes[1].value, isSep)
  {
    if Qualifies(key, e) then
      var value := e.attributes[1];
      e.(attributes := [e.attributes[0], value.(value := FileName(value.value, isSep))])
    else e
  }

  /** The body of the loop for one `Metadata` element: both calls, file key first. */
  function RewriteElement(e: Node, isSep: SeparatorRule): Node {
    ReplaceValue(SymbolsKey, ReplaceValue(FileKey, e, isSep), isSep)
  }

  /** One node as the loop leaves it. */
  function NormalizedNode(e: Node, isSep: SeparatorRule): Node {
    if e.tag == MetadataTag then RewriteElement(e, isSep) else e
  }

  /** The document after the loop: `Metadata` elements rewritten, every other node kept. */
  function Normalized(doc: Document, isSep: SeparatorRule): Document {
    seq(|doc|, i requires 0 <= i < |doc| => NormalizedNode(doc[i], isSep))
  }

  /** What `model.xml` holds once `RewriteXmlMetadataAsync` has run: the file
      itself on the fast path, None when the text does not parse, else the
      saved normalised document. */
  function NormalizedModel(file: seq<byte>, io: XmlIo, isSep: SeparatorRule): Option<seq<byte>> {
    var contents := io.readText(file);
    if !HasMarker(contents) then Some(file)
    else match io.load(contents)
      case None => None
      case Some(doc) => Some(io.save(Normalized(doc, isSep)))
  }

  /** The `foreach` over the `Metadata` nodes: both `ReplaceValue` calls on
      each node, updating it in place; other nodes are not visited. */
  method RewriteNodes(nodes: array<Node>, isSep: SeparatorRule)
    modifies nodes
    ensures nodes[..] == Normalized(old(nodes[..]), isSep)
  {
    ghost var doc := nodes[..];
    var i := 0;
    while i < nodes.Length
      invariant 0 <= i <= nodes.Length
      invariant forall k :: 0 <= k < i ==> nodes[k] == NormalizedNode(doc[k], isSep)
      invariant forall k :: i <= k < nodes.Length ==> nodes[k] == doc[k]
    {
      var node := nodes[i];
      if node.tag == MetadataTag {
        node := ReplaceValue(FileKey, node, isSep);
        node := ReplaceValue(SymbolsKey, node, isSep);
        nodes[i] := node;
      }
      i := i + 1;
    }
    assert nodes[..] == Normalized(doc, isSep);
  }

  /** `RewriteXmlMetadataAsync`: the fast-path test, then parse, rewrite the
      nodes and save. */
  method RewriteXmlMetadata(file: seq<byte>, io: XmlIo, isSep: SeparatorRule) returns (r: Option<seq<byte>>)
    ensures r == NormalizedModel(file, io, isSep)
  {
    var contents := io.readText(file);
    if !HasMarker(contents) {
      return Some(file);
    }
    var loaded := io.load(contents);
    if loaded.None? {
      return None;
    }
    var doc := loaded.value;
    var nodes := new Node[|doc|](i requires 0 <= i < |doc| => doc[i]);
    assert nodes[..] == doc;
    RewriteNodes(nodes, isSep);
    return Some(io.save(nodes[..]));
  }

  /** Without either marker in the text the file is returned untouched. */
  lemma FastPathUnchanged(file: seq<byte>, io: XmlIo, isSep: SeparatorRule)
    requires forall j :: !OccursAt(io.readText(file), Marker(FileKey), j)
    requires forall j :: !OccursAt(io.readText(file), Marker(SymbolsKey), j)
    ensures NormalizedModel(file, io, isSep) == Some(file)
  {
  }

  /** At most one of the two calls fires: the first call never changes the
      value the second call's guard reads, and the two keys differ. */
  lemma AtMostOneReplacement(e: Node, isSep: SeparatorRule)
    ensures Qualifies(SymbolsKey, ReplaceValue(FileKey, e, isSep)) == Qualifies(SymbolsKey, e)
    ensures !(Qualifies(FileKey, e) && Qualifies(SymbolsKey, e))
    ensures RewriteElement(e, isSep) ==
      if Qualifies(FileKey, e) then ReplaceValue(FileKey, e, isSep) else ReplaceValue(SymbolsKey, e, isSep)
  {
    assert FileKey != SymbolsKey by { assert |FileKey| != |SymbolsKey|; }
  }

  /** The frame: only the second attribute's value of a rewritable element may
      change, and it becomes the file name of what it was. */
  lemma NormalizedFrame(doc: Document, isSep: SeparatorRule)
    ensures |Normalized(doc, isSep)| == |doc|
    ensures forall i :: 0 <= i < |doc| ==>
      var e, r := doc[i], Normalized(doc, isSep)[i];
      r.tag == e.tag && r.text == e.text && |r.attributes| == |e.attributes|
      && (forall j :: 0 <= j < |e.attributes| ==> r.attributes[j].name == e.attributes[j].name)
      && (!Rewritable(e) ==> r == e)
      && (Rewritable(e) ==>
            (r.attributes[0] == e.attributes[0]
             && r.attributes[1].value == FileName(e.attributes[1].value, isSep)))
  {
    forall i | 0 <= i < |doc|
      ensures var e, r := doc[i], Normalized(doc, isSep)[i];
        r.tag == e.tag && r.text == e.text && |r.attributes| == |e.attributes|
        && (forall j :: 0 <= j < |e.attributes| ==> r.attributes[j].name == e.attributes[j].name)
        && (!Rewritable(e) ==> r == e)
        && (Rewritable(e) ==>
              (r.attributes[0] == e.attributes[0]
               && r.attributes[1].value == FileName(e.attributes[1].value, isSep)))
    {
      AtMostOneReplacement(doc[i], isSep);
    }
  }

  /** Elements without attributes pass through unchanged. */
  lemma AttributelessUnchanged(doc: Document, isSep: SeparatorRule, i: int)
    requires 0 <= i < |doc| && doc[i].attributes == []
    ensures Normalized(doc, isSep)[i] == doc[i]
  {
    NormalizedFrame(doc, isSep);
  }

  /** After rewriting, no recognised element's value contains a directory separator. */
  lemma NoSeparatorRemains(doc: Document, isSep: SeparatorRule)
    ensures forall i :: 0 <= i < |doc| && Rewritable(Normalized(doc, isSep)[i]) ==>
      NoSeparator(Normalized(doc, isSep)[i].attributes[1].value, isSep)
  {
    NormalizedFrame(doc, isSep);
    forall i | 0 <= i < |doc| && Rewritable(Normalized(doc, isSep)[i])
      ensures NoSeparator(Normalized(doc, isSep)[i].attributes[1].value, isSep)
    {
      assert Rewritable(doc[i]);
    }
  }

  /** Normalising a normalised node changes nothing. */
  lemma NormalizedNodeIdempotent(e: Node, isSep: SeparatorRule)
    ensures NormalizedNode(NormalizedNode(e, isSep), isSep) == NormalizedNode(e, isSep)
  {
    var r := NormalizedNode(e, isSep);
    AtMostOneReplacement(e, isSep);
    AtMostOneReplacement(r, isSep);
    if Rewritable(e) {
      FileNameIdempotent(e.attributes[1].value, isSep);
      assert NormalizedNode(r, isSep).attributes == [r.attributes[0], r.attributes[1]];
    }
  }

  /** Normalising a normalised document changes nothing. */
  lemma NormalizedIdempotent(doc: Document, isSep: SeparatorRule)
    ensures Normalized(Normalized(doc, isSep), isSep) == Normalized(doc, isSep)
  {
    var once := Normalized(doc, isSep);
    forall i | 0 <= i < |doc|
      ensures Normalized(once, isSep)[i] == once[i]
    {
      NormalizedNodeIdempotent(doc[i], isSep);
    }
  }

  /** The file after the rewrite is a fixed point of the rewrite whenever the
      saved document reads back as the document that was saved. */
  lemma NormalizedModelIdempotent(file: seq<byte>, io: XmlIo, isSep: SeparatorRule, doc: Document)
    requires HasMarker(io.readText(file)) && io.load(io.readText(file)) == Some(doc)
    requires var saved := io.save(Normalized(doc, isSep));
      io.load(io.readText(saved)) == Some(Normalized(doc, isSep))
    ensures var saved := io.save(Normalized(doc, isSep));
      NormalizedModel(file, io, isSep) == Some(saved)
      && NormalizedModel(saved, io, isSep) == Some(saved)
  {
    NormalizedIdempotent(doc, isSep);
  }

  /** A `Metadata` element of the shape the rewriter recognises. */
  function MetadataElement(key: string, value: string): Node {
    Node(MetadataTag, [Attribute("Name", key), Attribute("Value", value)], "")
  }

  /** A recognised element keeps its key and gets the file name of its value. */
  lemma NormalizedMetadataElement(key: string, value: string, isSep: SeparatorRule)
    requires key == FileKey || key == SymbolsKey
    ensures NormalizedNode(MetadataElement(key, value), isSep) == MetadataElement(key, FileName(value, isSep))
  {
    AtMostOneReplacement(MetadataElement(key, value), isSep);
  }

  /** The same assembly built under two different directories gives the
      same normalised element, whose value is the bare assembly name. */
  lemma BuildDirectoryDropped(key: string, dir1: string, dir2: string, name: string, isSep: SeparatorRule)
    requires key == FileKey || key == SymbolsKey
    requires |dir1| > 0 && isSep(dir1[|dir1| - 1]) && |dir2| > 0 && isSep(dir2[|dir2| - 1])
    requires NoSeparator(name, isSep)
    ensures NormalizedNode(MetadataElement(key, dir1 + name), isSep)
         == NormalizedNode(MetadataElement(key, dir2 + name), isSep)
         == MetadataElement(key, name)
  {
    FileNameAfterDirectory(dir1, name, isSep);
    FileNameAfterDirectory(dir2, name, isSep);
    NormalizedMetadataElement(key, dir1 + name, isSep);
    NormalizedMetadataElement(key, dir2 + name, isSep);
  }

  /** On Windows, `C:\ci\App.dll` and `D:\agent\App.dll` both become `App.dll`. */
  lemma WindowsBuildPathsNormalizeAlike(isSep: SeparatorRule)
    requires forall c :: isSep(c) <==> c == '\\' || c == '/'
    ensures NormalizedNode(MetadataElement(FileKey, "C:\\ci\\App.dll"), isSep)
         == NormalizedNode(MetadataElement(FileKey, "D:\\agent\\App.dll"), isSep)
         == MetadataElement(FileKey, "App.dll")
  {
    assert "C:\\ci\\" + "App.dll" == "C:\\ci\\App.dll";
    assert "D:\\agent\\" + "App.dll" == "D:\\agent\\App.dll";
    assert NoSeparator("App.dll", isSep);
    BuildDirectoryDropped(FileKey, "C:\\ci\\", "D:\\agent\\", "App.dll", isSep);
  }

  /** Where only '/' separates directories, a backslash path counts as one
      file name and is kept whole, so those two builds stay different. */
  lemma UnixKeepsBackslashPaths(isSep: SeparatorRule)
    requires forall c :: isSep(c) <==> c == '/'
    ensures NormalizedNode(MetadataElement(FileKey, "C:\\ci\\App.dll"), isSep)
         == MetadataElement(FileKey, "C:\\ci\\App.dll")
  {
    var v := "C:\\ci\\App.dll";
    assert NoSeparator(v, isSep);
    FileNameOfBareName(v, isSep);
    NormalizedMetadataElement(FileKey, v, isSep);
  }
}
