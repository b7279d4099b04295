/** The loader of map and item files: a loop with a stack of open nodes, against recursive descent. */
module OtbLoader {
  import opened Basics
  import opened OtbTree

  // ---- resuming: what becomes of the open nodes when the rest of the file is read

  /** An open node: its properties end at end, if it has children; these are its finished children. */
  datatype Frame = Frame(kind: Byte, begin: nat, end: nat, children: seq<Tree>)

  function Closed(f: Frame, end: nat, more: seq<Tree>): Tree {
    Tree(f.kind, f.begin, if f.children == [] then end else f.end, f.children + more)
  }

  /** A node with one more finished child. */
  function Grown(f: Frame, t: Tree): Frame {
    f.(children := f.children + [t])
  }

  function Last<T>(s: seq<T>): T
    requires s != []
  {
    s[|s|-1]
  }

  function Butlast<T>(s: seq<T>): seq<T>
    requires s != []
  {
    s[..|s|-1]
  }

  /** The root, once the open nodes, the last of them innermost, are closed by the rest of the file. */
  function Resume(s: seq<Byte>, i: nat, frames: seq<Frame>): Option<Tree>
    requires frames != []
    decreases |frames|, 0
  {
    var body := ReadBody(s, i);
    if body.None? then None
    else Return(s, body.value.next, Butlast(frames), Closed(Last(frames), body.value.end, body.value.children))
  }

  /** The same, when a node t has just been closed. */
  function Return(s: seq<Byte>, i: nat, frames: seq<Frame>, t: Tree): Option<Tree>
    decreases |frames|, 1
  {
    if frames == [] then if Plain(s, i) then Some(t) else None
    else Resume(s, i, Butlast(frames) + [Grown(Last(frames), t)])
  }

  /** The innermost open node, when a child begins at i. */
  function Begun(f: Frame, i: nat): Frame {
    if f.children == [] then f.(end := i) else f
  }

  /** The open nodes when a child begins at i, and when the innermost node ends at i. */
  function Opened(frames: seq<Frame>, i: nat, kind: Byte): seq<Frame>
    requires frames != []
  {
    Butlast(frames) + [Begun(Last(frames), i)] + [Frame(kind, i + 2, 0, [])]
  }

  function Ended(frames: seq<Frame>, i: nat): seq<Frame>
    requires frames != []
  {
    if |frames| == 1 then []
    else Butlast(Butlast(frames)) + [Grown(Last(Butlast(frames)), Closed(Last(frames), i, []))]
  }

  /** At a start marker one more node is open. */
  lemma OpenResumes(s: seq<Byte>, i: nat, frames: seq<Frame>)
    requires frames != [] && i < |s| && s[i] == START
    ensures i + 1 == |s| ==> Resume(s, i, frames) == None
    ensures i + 1 < |s| ==> Resume(s, i, frames) == Resume(s, i + 2, Opened(frames, i, s[i+1]))
  {
    if i + 1 < |s| {
      var body := ReadBody(s, i + 2);
      var now := Opened(frames, i, s[i+1]);
      if body.Some? {
        var child := body.value;
        var t := Closed(Last(now), child.end, child.children);
        assert t == Tree(s[i+1], i + 2, child.end, child.children);
        assert Resume(s, i + 2, now) == Return(s, child.next, Butlast(now), t);
        ChildCloses(s, i, frames, child.next, t);
      }
    }
  }

  /** The child of the innermost node that began at i is t, and the file goes on behind it. */
  lemma {:induction false} ChildCloses(s: seq<Byte>, i: nat, frames: seq<Frame>, next: nat, t: Tree)
    requires frames != []
    ensures var rest := ReadBody(s, next);
      Return(s, next, Butlast(frames) + [Begun(Last(frames), i)], t)
      == if rest.None? then None
         else Return(s, rest.value.next, Butlast(frames), Closed(Last(frames), i, [t] + rest.value.children))
  {
    var parent := Begun(Last(frames), i);
    var open := Butlast(frames) + [parent];
    var inner := Butlast(frames) + [Grown(parent, t)];
    assert Butlast(open) == Butlast(frames) == Butlast(inner);
    assert Return(s, next, open, t) == Resume(s, next, inner);
    var rest := ReadBody(s, next);
    if rest.Some? {
      assert parent.children + [t] + rest.value.children == parent.children + ([t] + rest.value.children);
    }
  }

  // ---- the nodes in memory

  class Node {
    var kind: Byte
    var propsBegin: nat
    var propsEnd: nat
    var children: seq<Node>

    constructor (kind: Byte, propsBegin: nat)
      ensures this.kind == kind && this.propsBegin == propsBegin && children == []
    {
      this.kind, this.propsBegin, propsEnd, children := kind, propsBegin, 0, [];
    }
  }

  /** The finished nodes, and the tree that each of them holds. */
  type Trees = map<Node, Tree>

  ghost predicate Finished(nodes: seq<Node>, done: Trees, trees: seq<Tree>) {
    && |nodes| == |trees|
    && forall k :: 0 <= k < |nodes| ==> nodes[k] in done && done[nodes[k]] == trees[k]
  }

  ghost predicate HoldsTree(n: Node, done: Trees, t: Tree)
    reads n
  {
    n.kind == t.kind && n.propsBegin == t.begin && n.propsEnd == t.end && Finished(n.children, done, t.children)
  }

  /** Every finished node and all nodes below it hold what is said. */
  ghost predicate HoldTrees(done: Trees)
    reads done.Keys
  {
    forall n {:trigger n in done} :: n in done ==> HoldsTree(n, done, done[n])
  }

  /** An open node; the last child is not finished if the node is not the innermost one. */
  ghost predicate HoldsFrame(n: Node, done: Trees, f: Frame, innermost: bool)
    reads n
  {
    && n.kind == f.kind && n.propsBegin == f.begin
    && (innermost || n.children != [])
    && (n.children != [] ==> n.propsEnd == f.end)
    && Finished(if innermost then n.children else Butlast(n.children), done, f.children)
  }

  ghost predicate HoldFrames(stack: seq<Node>, done: Trees, frames: seq<Frame>)
    reads stack
  {
    && |stack| == |frames|
    && forall k {:trigger stack[k]} :: 0 <= k < |stack| ==> HoldsFrame(stack[k], done, frames[k], k == |stack| - 1)
  }

  /** Each node on the stack is the last child of the one below it: the children that move when a node
      gets one more child are finished, and none of them is on the stack. */
  ghost predicate Linked(stack: seq<Node>, done: Trees)
    reads stack`children
  {
    && (forall k {:trigger stack[k]} :: 0 <= k < |stack| ==> stack[k] !in done)
    && (forall j, k :: 0 <= j < k < |stack| ==> stack[j] != stack[k])
    && (forall k {:trigger EndsWith(stack, k)} :: 0 < k < |stack| ==> EndsWith(stack, k))
  }

  ghost predicate EndsWith(stack: seq<Node>, k: nat)
    requires 0 < k < |stack|
    reads stack`children
  {
    stack[k-1].children != [] && Last(stack[k-1].children) == stack[k]
  }

  ghost predicate Parsing(stack: seq<Node>, done: Trees, frames: seq<Frame>)
    reads stack, done.Keys
  {
    HoldTrees(done) && HoldFrames(stack, done, frames) && Linked(stack, done)
  }

  lemma FinishedKeeps(nodes: seq<Node>, done: Trees, trees: seq<Tree>, n: Node, t: Tree)
    requires Finished(nodes, done, trees) && n !in done
    ensures Finished(nodes, done[n := t], trees)
  {
  }

  lemma FinishedNext(nodes: seq<Node>, done: Trees, trees: seq<Tree>, t: Tree)
    requires nodes != [] && Finished(Butlast(nodes), done, trees) && Last(nodes) !in done
    ensures Finished(nodes, done[Last(nodes) := t], trees + [t])
  {
  }

  /** The properties of a node end at its first child, or at its own end. */
  method MarkEnd(currentNode: Node, i: nat, ghost stack: seq<Node>, ghost done: Trees, ghost frames: seq<Frame>)
    requires stack != [] && currentNode == Last(stack) && Parsing(stack, done, frames)
    modifies currentNode`propsEnd
    ensures Parsing(stack, done, frames)
    ensures currentNode.propsEnd == if currentNode.children == [] then i else old(currentNode.propsEnd)
  {
    if currentNode.children == [] {
      currentNode.propsEnd := i;
    }
  }

  /** A child begins at i: the innermost node gets it as its last. */
  method OpenNode(stack: seq<Node>, i: nat, kind: Byte, ghost done: Trees, ghost frames: seq<Frame>)
    returns (stack': seq<Node>, ghost frames': seq<Frame>)
    requires stack != [] && Parsing(stack, done, frames)
    modifies Last(stack)
    ensures |stack'| == |stack| + 1 && stack' == stack + [Last(stack')] && fresh(Last(stack'))
    ensures frames' == Opened(frames, i, kind)
    ensures Parsing(stack', done, frames')
  {
    MarkEnd(Last(stack), i, stack, done, frames);
    frames' := Butlast(frames) + [Begun(Last(frames), i)];
    assert Parsing(stack, done, frames');
    var child := new Node(kind, i + 2);
    stack' := AddChild(Last(stack), child, stack, done, frames');
    frames' := frames' + [Frame(kind, i + 2, 0, [])];
  }

  method AddChild(currentNode: Node, child: Node, stack: seq<Node>, ghost done: Trees, ghost frames: seq<Frame>)
    returns (stack': seq<Node>)
    requires stack != [] && currentNode == Last(stack) && Parsing(stack, done, frames)
    requires child.children == [] && child !in stack && child !in done
    requires currentNode.children == [] ==> currentNode.propsEnd == Last(frames).end
    modifies currentNode`children
    ensures stack' == stack + [child]
    ensures Parsing(stack', done, frames + [Frame(child.kind, child.propsBegin, 0, [])])
  {
    currentNode.children := currentNode.children + [child];
    stack' := stack + [child];
    forall k | 0 < k < |stack| ensures EndsWith(stack, k) {
      assert old(EndsWith(stack, k));
    }
    AddedHolds(stack, child, done, frames);
  }

  /** With a new last child of the innermost node, the stack with it is as it should be. */
  lemma AddedHolds(stack: seq<Node>, child: Node, done: Trees, frames: seq<Frame>)
    requires stack != [] && |frames| == |stack| && Linked(stack, done)
    requires forall k {:trigger stack[k]} :: 0 <= k < |stack| ==> HoldsFrame(stack[k], done, frames[k], false)
    requires child.children == [] && child !in stack && child !in done
    requires Last(stack).children != [] && Last(Last(stack).children) == child
    ensures HoldFrames(stack + [child], done, frames + [Frame(child.kind, child.propsBegin, 0, [])])
    ensures Linked(stack + [child], done)
  {
    var stack', frames' := stack + [child], frames + [Frame(child.kind, child.propsBegin, 0, [])];
    forall k | 0 <= k < |stack'| ensures HoldsFrame(stack'[k], done, frames'[k], k == |stack'| - 1) {
      assert k < |stack| ==> stack'[k] == stack[k] && frames'[k] == frames[k];
    }
    AddedLinked(stack, child, done);
  }

  lemma AddedLinked(stack: seq<Node>, child: Node, done: Trees)
    requires stack != [] && Linked(stack, done) && child !in stack && child !in done
    requires Last(stack).children != [] && Last(Last(stack).children) == child
    ensures Linked(stack + [child], done)
  {
    forall k | 0 < k < |stack + [child]| ensures EndsWith(stack + [child], k) {
      assert k < |stack| ==> EndsWith(stack, k);
    }
  }

  /** With its innermost node closed, the rest of the stack is as it should be. */
  lemma ClosedHolds(stack: seq<Node>, i: nat, done: Trees, frames: seq<Frame>)
    requires stack != [] && HoldFrames(stack, done, frames) && Linked(stack, done)
    ensures var done' := done[Last(stack) := Closed(Last(frames), i, [])];
      HoldFrames(Butlast(stack), done', Ended(frames, i)) && Linked(Butlast(stack), done')
  {
    var n, t := Last(stack), Closed(Last(frames), i, []);
    var stack', frames' := Butlast(stack), Ended(frames, i);
    forall k | 0 < k < |stack'| ensures EndsWith(stack', k) {
      assert EndsWith(stack, k);
    }
    forall k | 0 <= k < |stack'| ensures HoldsFrame(stack'[k], done[n := t], frames'[k], k == |stack'| - 1) {
      assert HoldsFrame(stack[k], done, frames[k], false);
      if k == |stack'| - 1 {
        assert EndsWith(stack, k + 1);
        FinishedNext(stack[k].children, done, frames[k].children, t);
      } else {
        FinishedKeeps(Butlast(stack[k].children), done, frames[k].children, n, t);
      }
    }
  }

  /** One more finished node. */
  lemma DoneHolds(n: Node, i: nat, done: Trees, f: Frame)
    requires HoldTrees(done) && n !in done && HoldsFrame(n, done, f, true)
    requires n.children == [] ==> n.propsEnd == i
    ensures HoldTrees(done[n := Closed(f, i, [])])
  {
    var t := Closed(f, i, []);
    var done' := done[n := t];
    forall m | m in done' ensures HoldsTree(m, done', done'[m]) {
      assert m == n || HoldsTree(m, done, done[m]);
      FinishedKeeps(m.children, done, done'[m].children, n, t);
    }
  }

  /** The innermost node ends at i. */
  method CloseNode(stack: seq<Node>, i: nat, ghost done: Trees, ghost frames: seq<Frame>)
    returns (stack': seq<Node>, ghost done': Trees, ghost frames': seq<Frame>)
    requires stack != [] && Parsing(stack, done, frames)
    modifies Last(stack)
    ensures stack' == Butlast(stack) && frames' == Ended(frames, i)
    ensures done' == done[Last(stack) := Closed(Last(frames), i, [])]
    ensures Parsing(stack', done', frames')
  {
    MarkEnd(Last(stack), i, stack, done, frames);
    ClosedHolds(stack, i, done, frames);
    DoneHolds(Last(stack), i, done, Last(frames));
    stack' := Butlast(stack);
    done' := done[Last(stack) := Closed(Last(frames), i, [])];
    frames' := Ended(frames, i);
  }

  /** The rest of the file makes the root what recursive descent makes it. */
  ghost predicate OnCourse(s: seq<Byte>, i: nat, root: Node, stack: seq<Node>, done: Trees, frames: seq<Frame>)
    requires |s| > 7 && |stack| == |frames|
  {
    if stack != [] then stack[0] == root && Resume(s, i, frames) == ReadTree(s)
    else root in done && Return(s, i, [], done[root]) == ReadTree(s)
  }

  /** A start marker: there has to be an open node, and a type. */
  method Start(s: seq<Byte>, i: nat, root: Node, stack: seq<Node>, ghost done: Trees, ghost frames: seq<Frame>)
    returns (ok: bool, stack': seq<Node>, ghost frames': seq<Frame>)
    requires |s| > 7 && i < |s| && s[i] == START
    requires Parsing(stack, done, frames) && OnCourse(s, i, root, stack, done, frames)
    modifies if stack == [] then {} else {Last(stack)}
    ensures !ok ==> ReadTree(s).None?
    ensures ok ==> i + 1 < |s| && Parsing(stack', done, frames') && OnCourse(s, i + 2, root, stack', done, frames')
    ensures ok ==> stack' != [] && stack' == stack + [Last(stack')] && fresh(Last(stack'))
  {
    ok, stack', frames' := false, stack, frames;
    if stack != [] {
      OpenResumes(s, i, frames);
      if i + 1 < |s| {
        stack', frames' := OpenNode(stack, i, s[i+1], done, frames);
        ok := true;
      }
    }
  }

  /** An end marker: there has to be an open node. */
  method End(s: seq<Byte>, i: nat, root: Node, stack: seq<Node>, ghost done: Trees, ghost frames: seq<Frame>)
    returns (ok: bool, stack': seq<Node>, ghost done': Trees, ghost frames': seq<Frame>)
    requires |s| > 7 && i < |s| && s[i] == END
    requires Parsing(stack, done, frames) && OnCourse(s, i, root, stack, done, frames)
    modifies if stack == [] then {} else {Last(stack)}
    ensures !ok ==> ReadTree(s).None?
    ensures ok ==> Parsing(stack', done', frames') && OnCourse(s, i + 1, root, stack', done', frames')
    ensures stack' <= stack
  {
    ok, stack', done', frames' := false, stack, done, frames;
    if stack != [] {
      CloseResumes(s, i, frames);
      stack', done', frames' := CloseNode(stack, i, done, frames);
      ok := true;
    }
  }

  /** Deals with one byte of the file, and with the one behind it if they belong together. */
  method Step(s: seq<Byte>, i: nat, root: Node, stack: seq<Node>, ghost done: Trees, ghost frames: seq<Frame>)
    returns (ok: bool, i': nat, stack': seq<Node>, ghost done': Trees, ghost frames': seq<Frame>)
    requires |s| > 7 && i < |s| && Parsing(stack, done, frames) && OnCourse(s, i, root, stack, done, frames)
    modifies if stack == [] then {} else {Last(stack)}
    ensures !ok ==> ReadTree(s).None?
    ensures ok ==> i < i' <= |s| && Parsing(stack', done', frames') && OnCourse(s, i', root, stack', done', frames')
    ensures ok && |stack'| <= |stack| ==> stack' <= stack
    ensures ok && |stack'| > |stack| ==> stack' == stack + [Last(stack')] && fresh(Last(stack'))
  {
    ok, i', stack', done', frames' := true, i + 1, stack, done, frames;
    if s[i] == START {
      ok, stack', frames' := Start(s, i, root, stack, done, frames);
      i' := i + 2;
    } else if s[i] == END {
      ok, stack', done', frames' := End(s, i, root, stack, done, frames);
    } else {
      PassResumes(s, i, frames);
      if s[i] == ESCAPE {
        ok, i' := i + 1 < |s|, i + 2;
      }
    }
  }

  // ---- the loader

  type Identifier = id: seq<Byte> | |id| == 4 witness [0, 0, 0, 0]

  const WILDCARD: Identifier := [0, 0, 0, 0]

  predicate Accepts(contents: seq<Byte>, accepted: Identifier) {
    |contents| > 7 && (contents[..4] == accepted || contents[..4] == WILDCARD)
  }

  class Loader {
    const fileContents: seq<Byte>
    var propBuffer: seq<Byte>

    constructor (contents: seq<Byte>)
      ensures fileContents == contents
    {
      fileContents, propBuffer := contents, [];
    }

    /** Opens a file, unless it is too short or is identified as something else. */
    static method Open(contents: seq<Byte>, accepted: Identifier) returns (loader: Option<Loader>)
      ensures loader.Some? <==> Accepts(contents, accepted)
      ensures loader.Some? ==> loader.value.fileContents == contents && fresh(loader.value)
    {
      if |contents| <= 7 || (contents[..4] != accepted && contents[..4] != WILDCARD) {
        return None;
      }
      var l := new Loader(contents);
      loader := Some(l);
    }

    /** Builds the tree of nodes; it is the one that recursive descent finds, and there is none if that fails. */
    method ParseTree() returns (r: Option<Node>, ghost done: Trees)
      requires |fileContents| > 7
      ensures r.Some? <==> ReadTree(fileContents).Some?
      ensures r.Some? ==> HoldTrees(done) && r.value in done && done[r.value] == ReadTree(fileContents).value
    {
      done := map[];
      if fileContents[4] != START {
        return None, done;
      }
      var root := new Node(fileContents[5], 6);
      Begins(fileContents);
      var ok;
      ok, done := ParseNodes(root);
      r := if ok then Some(root) else None;
    }

    /** The loop, with a stack of the nodes that are open. */
    method ParseNodes(root: Node) returns (ok: bool, ghost done: Trees)
      requires |fileContents| > 7 && root.kind == fileContents[5] && root.propsBegin == 6 && root.children == []
      requires Resume(fileContents, 6, [Frame(fileContents[5], 6, 0, [])]) == ReadTree(fileContents)
      modifies root
      ensures ok <==> ReadTree(fileContents).Some?
      ensures ok ==> HoldTrees(done) && root in done && done[root] == ReadTree(fileContents).value
    {
      var s := fileContents;
      var stack, i := [root], 6;
      ghost var frames, nodes := [Frame(s[5], 6, 0, [])], {root};
      done := map[];
      while i < |s|
        invariant i <= |s| && Parsing(stack, done, frames) && OnCourse(s, i, root, stack, done, frames)
        invariant fresh(nodes - {root}) && forall k {:trigger stack[k]} :: 0 <= k < |stack| ==> stack[k] in nodes
        decreases |s| - i
      {
        ghost var was := stack;
        assert stack != [] ==> Last(stack) in nodes;
        ok, i, stack, done, frames := Step(s, i, root, stack, done, frames);
        if !ok {
          return;
        }
        if |stack| > |was| {
          nodes := nodes + {Last(stack)};
        }
      }
      ok := stack == [];
    }

    /** The properties of a node, without the bytes that escape; false if there are none. */
    method GetProps(node: Node) returns (found: bool, props: seq<Byte>)
      requires node.propsBegin <= node.propsEnd <= |fileContents|
      modifies this
      ensures found == (node.propsBegin != node.propsEnd)
      ensures found ==> props == Unescape(fileContents[node.propsBegin..node.propsEnd], false) && propBuffer == props
      ensures !found ==> propBuffer == old(propBuffer)
    {
      found, props := false, [];
      if node.propsBegin == node.propsEnd {
        return;
      }
      var s := fileContents[node.propsBegin..node.propsEnd];
      propBuffer := [];
      var lastEscaped := false;
      for i := 0 to |s|
        invariant propBuffer + Unescape(s[i..], lastEscaped) == Unescape(s, false)
      {
        assert s[i..][0] == s[i] && s[i..][1..] == s[i+1..];
        lastEscaped := s[i] == ESCAPE && !lastEscaped;
        if !lastEscaped {
          propBuffer := propBuffer + [s[i]];
        }
      }
      found, props := true, propBuffer;
    }
  }

  /** Other bytes change nothing. */
  lemma PassResumes(s: seq<Byte>, i: nat, frames: seq<Frame>)
    requires i < |s| && s[i] != START && s[i] != END
    ensures var next := if s[i] == ESCAPE then i + 2 else i + 1;
      (frames != [] ==> Resume(s, i, frames) == if next <= |s| then Resume(s, next, frames) else None)
      && (Plain(s, i) <==> next <= |s| && Plain(s, next))
  {
  }

  lemma {:induction false} Begins(s: seq<Byte>)
    requires |s| > 7 && s[4] == START
    ensures Resume(s, 6, [Frame(s[5], 6, 0, [])]) == ReadTree(s)
  {
    assert Butlast([Frame(s[5], 6, 0, [])]) == [];
    var body := ReadBody(s, 6);
    if body.Some? {
      assert [] + body.value.children == body.value.children;
    }
  }

  /** At an end marker the innermost node is finished. */
  lemma CloseResumes(s: seq<Byte>, i: nat, frames: seq<Frame>)
    requires frames != [] && i < |s| && s[i] == END
    ensures |frames| == 1 ==> Resume(s, i, frames) == Return(s, i + 1, [], Closed(frames[0], i, []))
    ensures |frames| > 1 ==> Resume(s, i, frames) == Resume(s, i + 1, Ended(frames, i))
  {
  }

  /** A file with an encoded tree is accepted unless the tree is one node without properties; what the loader
      builds then mirrors the tree. */
  lemma {:induction false} EncodedFileIsRead(id: Identifier, d: Doc)
    ensures Accepts(id + Encode(d), id) <==> d.props != [] || d.children != []
    ensures Accepts(id + Encode(d), id) ==>
      ReadTree(id + Encode(d)).Some? && Mirrors(id + Encode(d), ReadTree(id + Encode(d)).value, d)
  {
    assert (id + Encode(d))[..4] == id;
    if d.props == [] && d.children == [] {
      assert |Encode(d)| == 3;
    } else if |id + Encode(d)| > 7 {
      EncodedTreeReadsBack(id, d);
    }
  }
}
