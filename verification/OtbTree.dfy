/** The tree format of map and item files: what a file means, and what an encoded tree reads back as. */
module OtbTree {
  import opened Basics

  const ESCAPE: Byte := 0xFD
  const START: Byte := 0xFE
  const END: Byte := 0xFF

  /** A tree to be stored. */
  datatype Doc = Doc(kind: Byte, props: seq<Byte>, children: seq<Doc>)

  /** A node found in a file: its properties are the bytes from begin up to end, still escaped. */
  datatype Tree = Tree(kind: Byte, begin: nat, end: nat, children: seq<Tree>)

  // ---- the encoding

  predicate IsMarker(b: Byte) {
    b == ESCAPE || b == START || b == END
  }

  function Escape(props: seq<Byte>): seq<Byte> {
    if props == [] then []
    else (if IsMarker(props[0]) then [ESCAPE, props[0]] else [props[0]]) + Escape(props[1..])
  }

  function Encode(d: Doc): (s: seq<Byte>)
    ensures |s| >= 3 && s[0] == START && s[1] == d.kind
  {
    [START, d.kind] + Escape(d.props) + EncodeAll(d.children) + [END]
  }

  function EncodeAll(docs: seq<Doc>): seq<Byte> {
    if docs == [] then [] else Encode(docs[0]) + EncodeAll(docs[1..])
  }

  /** The bytes without those that escape the next; lastEscaped tells whether the byte before escapes the first. */
  function Unescape(s: seq<Byte>, lastEscaped: bool): seq<Byte> {
    if s == [] then []
    else if s[0] == ESCAPE && !lastEscaped then Unescape(s[1..], true)
    else [s[0]] + Unescape(s[1..], false)
  }

  lemma {:induction false} UnescapeEscape(props: seq<Byte>)
    ensures Unescape(Escape(props), false) == props
  {
    if props != [] {
      var s, rest := Escape(props), Escape(props[1..]);
      UnescapeEscape(props[1..]);
      if IsMarker(props[0]) {
        assert s[1..] == [props[0]] + rest;
        assert s[1..][1..] == rest;
      } else {
        assert s[1..] == rest;
      }
    }
  }

  // ---- the meaning of a file, by recursive descent

  /** What follows in an open node: where its properties would end, its children, and the place behind its end. */
  datatype Body = Body(end: nat, children: seq<Tree>, next: nat)

  function ReadBody(s: seq<Byte>, i: nat): (r: Option<Body>)
    ensures r.Some? ==> i <= r.value.end < r.value.next <= |s|
    decreases |s| - i
  {
    if i >= |s| then None
    else if s[i] == END then Some(Body(i, [], i + 1))
    else if s[i] == START then
      if i + 1 >= |s| then None else
      var child := ReadBody(s, i + 2);
      if child.None? then None else
      var rest := ReadBody(s, child.value.next);
      if rest.None? then None else
      Some(Body(i, [Tree(s[i+1], i + 2, child.value.end, child.value.children)] + rest.value.children, rest.value.next))
    else if s[i] == ESCAPE then if i + 1 >= |s| then None else ReadBody(s, i + 2)
    else ReadBody(s, i + 1)
  }

  /** Nothing but plain and escaped bytes is left. */
  predicate Plain(s: seq<Byte>, i: nat)
    decreases |s| - i
  {
    i >= |s|
    || (if s[i] == ESCAPE then i + 1 < |s| && Plain(s, i + 2) else s[i] != START && s[i] != END && Plain(s, i + 1))
  }

  /** The one tree in a file, behind its identifier. */
  function ReadTree(s: seq<Byte>): Option<Tree>
    requires |s| > 7
  {
    if s[4] != START then None else
    var body := ReadBody(s, 6);
    if body.None? || !Plain(s, body.value.next) then None
    else Some(Tree(s[5], 6, body.value.end, body.value.children))
  }

  /** A node of a file that says what a stored tree said: same types, same shape, same properties. */
  ghost predicate Mirrors(s: seq<Byte>, t: Tree, d: Doc) {
    && t.kind == d.kind
    && t.begin <= t.end <= |s|
    && Unescape(s[t.begin..t.end], false) == d.props
    && (t.begin == t.end <==> d.props == [])
    && MirrorsAll(s, t.children, d.children)
  }

  ghost predicate MirrorsAll(s: seq<Byte>, trees: seq<Tree>, docs: seq<Doc>) {
    if trees == [] || docs == [] then trees == [] && docs == []
    else Mirrors(s, trees[0], docs[0]) && MirrorsAll(s, trees[1..], docs[1..])
  }

  lemma {:induction false} MirrorsNext(s: seq<Byte>, t: Tree, trees: seq<Tree>, docs: seq<Doc>)
    requires docs != [] && Mirrors(s, t, docs[0]) && MirrorsAll(s, trees, docs[1..])
    ensures MirrorsAll(s, [t] + trees, docs)
  {
    assert ([t] + trees)[1..] == trees;
  }

  /** From i on the file has t. */
  ghost predicate At(s: seq<Byte>, i: nat, t: seq<Byte>) {
    i + |t| <= |s| && s[i..i+|t|] == t
  }

  lemma AtParts(s: seq<Byte>, i: nat, t: seq<Byte>, u: seq<Byte>)
    requires At(s, i, t + u)
    ensures At(s, i, t) && At(s, i + |t|, u)
  {
    assert t == (t + u)[..|t|] && u == (t + u)[|t|..];
    assert s[i..i+|t|] == s[i..i+|t+u|][..|t|];
    assert s[i+|t|..i+|t|+|u|] == s[i..i+|t+u|][|t|..];
  }

  /** Escaped properties are passed over. */
  lemma {:induction false} PropsArePassed(s: seq<Byte>, i: nat, props: seq<Byte>)
    requires At(s, i, Escape(props))
    ensures ReadBody(s, i) == ReadBody(s, i + |Escape(props)|)
    decreases props
  {
    if props != [] {
      var first := if IsMarker(props[0]) then [ESCAPE, props[0]] else [props[0]];
      AtParts(s, i, first, Escape(props[1..]));
      FirstIsPassed(s, i, props[0]);
      PropsArePassed(s, i + |first|, props[1..]);
    }
  }

  lemma FirstIsPassed(s: seq<Byte>, i: nat, b: Byte)
    requires At(s, i, if IsMarker(b) then [ESCAPE, b] else [b])
    ensures ReadBody(s, i) == ReadBody(s, if IsMarker(b) then i + 2 else i + 1)
  {
    assert s[i] == s[i..i+1][0];
    if IsMarker(b) {
      assert s[i] == s[i..i+2][0];
    }
  }

  /** Encoded children are read back, one after the other. */
  lemma {:induction false} ChildrenReadBack(s: seq<Byte>, i: nat, docs: seq<Doc>)
    requires At(s, i, EncodeAll(docs) + [END])
    ensures ReadBody(s, i).Some?
    ensures ReadBody(s, i).value.end == i && ReadBody(s, i).value.next == i + |EncodeAll(docs)| + 1
    ensures MirrorsAll(s, ReadBody(s, i).value.children, docs)
    decreases docs, 1
  {
    if docs == [] {
      assert EncodeAll(docs) + [END] == [END];
      assert s[i..i+1][0] == s[i];
    } else {
      var first, rest := Encode(docs[0]), EncodeAll(docs[1..]) + [END];
      FirstChild(s, i, docs);
      NodeReadsBack(s, i, docs[0]);
      ChildrenReadBack(s, i + |first|, docs[1..]);
      ChildThenRest(s, i);
      var child, others := ReadBody(s, i + 2).value, ReadBody(s, i + |first|).value;
      MirrorsNext(s, Tree(s[i+1], i + 2, child.end, child.children), others.children, docs);
    }
  }

  lemma {:induction false} FirstChild(s: seq<Byte>, i: nat, docs: seq<Doc>)
    requires docs != [] && At(s, i, EncodeAll(docs) + [END])
    ensures var first := Encode(docs[0]);
      && At(s, i, first) && At(s, i + |first|, EncodeAll(docs[1..]) + [END])
      && i + 1 < |s| && s[i] == START && s[i+1] == docs[0].kind
      && |EncodeAll(docs)| == |first| + |EncodeAll(docs[1..])|
  {
    var first, rest := Encode(docs[0]), EncodeAll(docs[1..]) + [END];
    Regroup([], first, EncodeAll(docs[1..]), [END]);
    assert [] + first == first && [] + (first + rest) == first + rest;
    AtParts(s, i, first, rest);
    assert s[i] == s[i..i+|first|][0] && s[i+1] == s[i..i+|first|][1];
  }

  lemma ChildThenRest(s: seq<Byte>, i: nat)
    requires i + 1 < |s| && s[i] == START && ReadBody(s, i + 2).Some?
    requires ReadBody(s, ReadBody(s, i + 2).value.next).Some?
    ensures var child := ReadBody(s, i + 2).value;
      var rest := ReadBody(s, child.next).value;
      ReadBody(s, i) == Some(Body(i, [Tree(s[i+1], i + 2, child.end, child.children)] + rest.children, rest.next))
  {
  }

  /** An encoded tree is read back. */
  lemma {:induction false} NodeReadsBack(s: seq<Byte>, i: nat, d: Doc)
    requires At(s, i, Encode(d))
    ensures ReadBody(s, i + 2).Some? && ReadBody(s, i + 2).value.next == i + |Encode(d)|
    ensures Mirrors(s, Tree(d.kind, i + 2, ReadBody(s, i + 2).value.end, ReadBody(s, i + 2).value.children), d)
    decreases d, 0
  {
    var end := NodeHead(s, i, d);
    ChildrenReadBack(s, end, d.children);
  }

  /** The properties of an encoded tree, and where they end. */
  lemma NodeHead(s: seq<Byte>, i: nat, d: Doc) returns (end: nat)
    requires At(s, i, Encode(d))
    ensures i + 2 <= end <= |s| && ReadBody(s, i + 2) == ReadBody(s, end)
    ensures At(s, end, EncodeAll(d.children) + [END]) && i + |Encode(d)| == end + |EncodeAll(d.children)| + 1
    ensures Unescape(s[i+2..end], false) == d.props && (i + 2 == end <==> d.props == [])
  {
    end := i + 2 + |Escape(d.props)|;
    NodeParts(s, i, d);
    PropsArePassed(s, i + 2, d.props);
    PropsMirror(s, i + 2, d.props);
  }

  lemma {:induction false} NodeParts(s: seq<Byte>, i: nat, d: Doc)
    requires At(s, i, Encode(d))
    ensures At(s, i + 2, Escape(d.props)) && At(s, i + 2 + |Escape(d.props)|, EncodeAll(d.children) + [END])
    ensures |Encode(d)| == 2 + |Escape(d.props)| + |EncodeAll(d.children)| + 1
  {
    var props, rest := Escape(d.props), EncodeAll(d.children) + [END];
    Regroup([START, d.kind], props, EncodeAll(d.children), [END]);
    AtParts(s, i, [START, d.kind], props + rest);
    AtParts(s, i + 2, props, rest);
  }

  lemma Regroup(a: seq<Byte>, b: seq<Byte>, c: seq<Byte>, e: seq<Byte>)
    ensures a + b + c + e == a + (b + (c + e))
  {
  }

  lemma {:induction false} PropsMirror(s: seq<Byte>, begin: nat, props: seq<Byte>)
    requires At(s, begin, Escape(props))
    ensures var end := begin + |Escape(props)|;
      end <= |s| && Unescape(s[begin..end], false) == props && (begin == end <==> props == [])
  {
    UnescapeEscape(props);
  }

  /** A file with an identifier and an encoded tree is read as that tree. */
  lemma {:induction false} EncodedTreeReadsBack(id: seq<Byte>, d: Doc)
    requires |id| == 4 && |id + Encode(d)| > 7
    ensures ReadTree(id + Encode(d)).Some?
    ensures Mirrors(id + Encode(d), ReadTree(id + Encode(d)).value, d)
  {
    NodeReadsBack(id + Encode(d), 4, d);
  }
}
