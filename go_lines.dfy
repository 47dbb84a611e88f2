/** The lines of Go source the types template emits, and readers that look
    back at a rendered line sequence: the whole sequence read back as
    declarations nested as the structs nest (`Tree`), the members a struct
    body declares at its own nesting level, the top-level structs with their
    members, the type names declared, the constants declared, and where
    documentation comments sit.

    Each `Line` stands for one logical line of the generated text (a
    comment may span several physical lines); the template's indentation
    and blank lines are not modelled. */
module GoLines {

  datatype Line =
    | TypeDecl(name: string, underlying: string)    // type Name Underlying
    | ConstOpen                                      // const (
    | Const(name: string, typ: string, value: string) // Name Type = "value"
    | ConstClose                                     // )
    | StructOpen(name: string)                       // type Name struct {
    | StructClose                                    // }
    | InlineOpen(name: string)                       // Name struct {
    | InlineClose(tag: string)                       // } `tag`
    | Embedded(typ: string)                          // Type
    | Field(name: string, typ: string, tag: string)  // Name Type `tag` (no tag when empty)
    | Comment(text: string)                          // a rendered documentation comment

  /** How a line changes the struct nesting depth. */
  function Delta(l: Line): int {
    match l
    case StructOpen(_) => 1
    case InlineOpen(_) => 1
    case StructClose => -1
    case InlineClose(_) => -1
    case _ => 0
  }

  /** A line that declares one member of the struct it sits in. */
  predicate IsMember(l: Line) {
    l.Field? || l.Embedded? || l.InlineOpen?
  }

  /** A line that may appear inside a struct body. */
  predicate IsStructLine(l: Line) {
    IsMember(l) || l.InlineClose? || l.Comment?
  }

  predicate StructLines(lines: seq<Line>) {
    forall l :: l in lines ==> IsStructLine(l)
  }

  /** Net change of nesting depth over `lines`. */
  function Net(lines: seq<Line>): int
    decreases |lines|
  {
    if lines == [] then 0 else Delta(lines[0]) + Net(lines[1..])
  }

  /** Reading `lines` from depth `d`, the depth never drops below `m`. */
  predicate StaysAbove(lines: seq<Line>, d: int, m: int)
    decreases |lines|
  {
    lines == [] || (m <= d + Delta(lines[0]) && StaysAbove(lines[1..], d + Delta(lines[0]), m))
  }

  /** Every nested struct that is opened is closed again, and nothing closes
      a struct it did not open. */
  predicate Balanced(lines: seq<Line>) {
    Net(lines) == 0 && StaysAbove(lines, 0, 0)
  }

  /** The member lines read at depth zero when reading `lines` from depth `d`. */
  function MembersFrom(lines: seq<Line>, d: int): seq<Line>
    decreases |lines|
  {
    if lines == [] then []
    else (if d == 0 && IsMember(lines[0]) then [lines[0]] else []) + MembersFrom(lines[1..], d + Delta(lines[0]))
  }

  /** The members a struct body declares at its own level; the members of
      nested inline structs are not among them. */
  function Members(lines: seq<Line>): seq<Line> {
    MembersFrom(lines, 0)
  }

  /** A line a documentation comment can stand above. */
  predicate IsDocumentable(l: Line) {
    l.Field? || l.Const?
  }

  /** A top-level struct read back: its name and the members its body
      declares at its own level. */
  datatype StructDecl = StructDecl(name: string, members: seq<Line>)

  /** The lines read from relative depth `e` up to, and not including, the
      line that closes the struct they sit in. */
  function BodyOf(lines: seq<Line>, e: int): (r: seq<Line>)
    ensures |r| <= |lines|
    decreases |lines|
  {
    if lines == [] || e + Delta(lines[0]) < 0 then []
    else [lines[0]] + BodyOf(lines[1..], e + Delta(lines[0]))
  }

  /** Reading `lines` from relative depth `e`, some line closes the struct
      they sit in. */
  predicate Closes(lines: seq<Line>, e: int)
    decreases |lines|
  {
    lines != [] && (e + Delta(lines[0]) < 0 || Closes(lines[1..], e + Delta(lines[0])))
  }

  /** The line that closes the struct `lines` sit in, read from relative
      depth `e`; nothing when no line closes it. */
  function CloseOf(lines: seq<Line>, e: int): (r: seq<Line>)
    ensures r == [] <==> !Closes(lines, e)
    decreases |lines|
  {
    if lines == [] then []
    else if e + Delta(lines[0]) < 0 then [lines[0]]
    else CloseOf(lines[1..], e + Delta(lines[0]))
  }

  /** A declaration read back at its own nesting level: the comment standing
      above it (or nothing), its own line, and, when that line opens a
      struct, the declarations of the struct's body and the line closing it. */
  datatype Decl = Decl(doc: seq<Line>, line: Line, inner: seq<Decl>, close: seq<Line>)

  /** The declarations read at depth zero when reading `lines` from depth
      `d`. Every line met there gives one: a comment is merged with the field
      or constant right below it, and any other line is read by `Node`. */
  function TreeFrom(lines: seq<Line>, d: int): seq<Decl>
    decreases |lines|, 1
  {
    if lines == [] then []
    else if d == 0 && lines[0].Comment? && |lines| > 1 && IsDocumentable(lines[1]) then
      [Decl([lines[0]], lines[1], [], [])] + TreeFrom(lines[2..], d)
    else
      (if d == 0 then [Node(lines[0], lines[1..])] else [])
      + TreeFrom(lines[1..], d + Delta(lines[0]))
  }

  /** The undocumented declaration on line `l`, followed by `rest`: a line
      that opens a struct takes the struct's body, itself read back, and the
      line that closes it. */
  function Node(l: Line, rest: seq<Line>): Decl
    decreases |rest| + 1, 0
  {
    if Delta(l) > 0 then Decl([], l, TreeFrom(BodyOf(rest, 0), 0), CloseOf(rest, 0))
    else Decl([], l, [], [])
  }

  /** `lines` read back as a sequence of declarations, nested as the structs
      in it nest. */
  function Tree(lines: seq<Line>): seq<Decl> {
    TreeFrom(lines, 0)
  }

  /** The top-level structs opened when reading `lines` from depth `d`, each
      with the members of its own body. */
  function StructsFrom(lines: seq<Line>, d: int): seq<StructDecl>
    decreases |lines|
  {
    if lines == [] then []
    else
      (if d == 0 && lines[0].StructOpen? then [StructDecl(lines[0].name, Members(BodyOf(lines[1..], 0)))] else [])
      + StructsFrom(lines[1..], d + Delta(lines[0]))
  }

  /** The top-level structs `lines` declares, in order. */
  function Structs(lines: seq<Line>): seq<StructDecl> {
    StructsFrom(lines, 0)
  }

  /** Every documentation comment is immediately followed, on the next
      non-blank line, by a field or a constant. */
  predicate CommentsAttached(lines: seq<Line>) {
    forall i :: 0 <= i < |lines| && lines[i].Comment? ==>
      i + 1 < |lines| && IsDocumentable(lines[i + 1])
  }

  /** For each field or constant, in order, the documentation it carries:
      the comment line right above it (blank lines aside), or nothing. */
  function Docs(lines: seq<Line>): seq<seq<Line>>
    decreases |lines|
  {
    if lines == [] then []
    else if lines[0].Comment? && |lines| > 1 && IsDocumentable(lines[1]) then [[lines[0]]] + Docs(lines[2..])
    else if IsDocumentable(lines[0]) then [[]] + Docs(lines[1..])
    else Docs(lines[1..])
  }

  /** The names of the top-level types declared, in order. */
  function Decls(lines: seq<Line>): seq<string>
    decreases |lines|
  {
    if lines == [] then []
    else
      (match lines[0]
       case TypeDecl(n, _) => [n]
       case StructOpen(n) => [n]
       case _ => []) + Decls(lines[1..])
  }

  /** The constant lines, in order. */
  function Consts(lines: seq<Line>): seq<Line>
    decreases |lines|
  {
    if lines == [] then []
    else (if lines[0].Const? then [lines[0]] else []) + Consts(lines[1..])
  }

  lemma {:induction false} NetAppend(a: seq<Line>, b: seq<Line>)
    ensures Net(a + b) == Net(a) + Net(b)
  {
    if a != [] {
      assert (a + b)[1..] == a[1..] + b;
      NetAppend(a[1..], b);
    } else {
      assert a + b == b;
    }
  }

  /** Reading `a + b` takes `a`'s first line first. */
  lemma MembersFromStep(a: seq<Line>, b: seq<Line>, d: int)
    requires a != []
    ensures MembersFrom(a + b, d)
      == (if d == 0 && IsMember(a[0]) then [a[0]] else []) + MembersFrom(a[1..] + b, d + Delta(a[0]))
  {
    assert (a + b)[0] == a[0] && (a + b)[1..] == a[1..] + b;
  }

  lemma {:induction false} MembersFromAppend(a: seq<Line>, b: seq<Line>, d: int)
    ensures MembersFrom(a + b, d) == MembersFrom(a, d) + MembersFrom(b, d + Net(a))
  {
    if a != [] {
      var head := if d == 0 && IsMember(a[0]) then [a[0]] else [];
      var d' := d + Delta(a[0]);
      calc {
        MembersFrom(a + b, d);
      == { MembersFromStep(a, b, d); }
        head + MembersFrom(a[1..] + b, d');
      == { MembersFromAppend(a[1..], b, d'); }
        head + (MembersFrom(a[1..], d') + MembersFrom(b, d' + Net(a[1..])));
      == { assert d' + Net(a[1..]) == d + Net(a); }
        (head + MembersFrom(a[1..], d')) + MembersFrom(b, d + Net(a));
        MembersFrom(a, d) + MembersFrom(b, d + Net(a));
      }
    } else {
      assert a + b == b;
    }
  }

  lemma {:induction false} StaysAboveAppend(a: seq<Line>, b: seq<Line>, d: int, m: int)
    requires StaysAbove(a, d, m) && StaysAbove(b, d + Net(a), m)
    ensures StaysAbove(a + b, d, m)
  {
    if a != [] {
      assert (a + b)[1..] == a[1..] + b;
      StaysAboveAppend(a[1..], b, d + Delta(a[0]), m);
    } else {
      assert a + b == b;
    }
  }

  lemma {:induction false} StaysAboveShift(a: seq<Line>, d: int, m: int, k: int)
    requires StaysAbove(a, d, m)
    ensures StaysAbove(a, d + k, m + k)
  {
    if a != [] {
      StaysAboveShift(a[1..], d + Delta(a[0]), m, k);
    }
  }

  lemma {:induction false} StaysAboveLower(a: seq<Line>, d: int, m: int, m': int)
    requires m' <= m && StaysAbove(a, d, m)
    ensures StaysAbove(a, d, m')
  {
    if a != [] {
      StaysAboveLower(a[1..], d + Delta(a[0]), m, m');
    }
  }

  /** Lines read strictly inside a nested struct contribute no member. */
  lemma {:induction false} NestedMembersHidden(a: seq<Line>, d: int)
    requires 1 <= d && StaysAbove(a, d, 1)
    ensures MembersFrom(a, d) == []
  {
    if a != [] {
      NestedMembersHidden(a[1..], d + Delta(a[0]));
    }
  }

  lemma BalancedAppend(a: seq<Line>, b: seq<Line>)
    requires Balanced(a) && Balanced(b)
    ensures Balanced(a + b)
    ensures Members(a + b) == Members(a) + Members(b)
  {
    NetAppend(a, b);
    StaysAboveAppend(a, b, 0, 0);
    MembersFromAppend(a, b, 0);
  }

  /** A line that neither opens nor closes a struct. */
  lemma FlatLine(l: Line)
    requires Delta(l) == 0
    ensures Balanced([l])
    ensures Members([l]) == if IsMember(l) then [l] else []
  {
    assert [l][1..] == [];
    assert MembersFrom([l], 0) == (if IsMember(l) then [l] else []) + MembersFrom([], Delta(l));
  }

  /** Lines none of which opens or closes a struct. */
  lemma {:induction false} FlatLines(a: seq<Line>)
    requires forall i :: 0 <= i < |a| ==> Delta(a[i]) == 0
    ensures Balanced(a)
  {
    if a != [] {
      FlatLines(a[1..]);
      StaysAboveLower(a[1..], 0, 0, 0);
    }
  }

  /** A balanced body wrapped in an opening and a closing line is balanced,
      and at its own level only the opening line can be a member. */
  lemma {:induction false} Block(open: Line, body: seq<Line>, close: Line)
    requires Delta(open) == 1 && Delta(close) == -1 && !IsMember(close)
    requires Balanced(body)
    ensures Balanced([open] + body + [close])
    ensures Members([open] + body + [close]) == if IsMember(open) then [open] else []
  {
    var rest := body + [close];
    assert [open] + body + [close] == [open] + rest;
    assert ([open] + rest)[1..] == rest;
    // Inside the block the depth starts at one and never drops below it.
    StaysAboveShift(body, 0, 0, 1);
    StaysAboveLower(body, 1, 1, 0);
    assert Net(body) == 0;
    assert [close][1..] == [];
    assert StaysAbove([close], 1 + Net(body), 0);
    StaysAboveAppend(body, [close], 1, 0);
    NetAppend(body, [close]);
    assert Net(rest) == -1;
    NetAppend([open], rest);
    assert Net([open]) == 1;
    MembersFromAppend(body, [close], 1);
    NestedMembersHidden(body, 1);
    assert MembersFrom([close], 1) == [];
  }

  lemma CommentsAttachedAppend(a: seq<Line>, b: seq<Line>)
    requires CommentsAttached(a) && CommentsAttached(b)
    ensures CommentsAttached(a + b)
  {
  }

  /** Gluing on more lines leaves the documentation read from `a` in place,
      provided no comment of `a` is left waiting for its declaration. */
  lemma {:induction false} DocsAppend(a: seq<Line>, b: seq<Line>)
    requires CommentsAttached(a)
    ensures Docs(a + b) == Docs(a) + Docs(b)
    decreases |a|
  {
    if a == [] {
      assert a + b == b;
    } else if a[0].Comment? {
      assert 1 < |a| && IsDocumentable(a[1]);
      assert (a + b)[0] == a[0] && (a + b)[1] == a[1] && (a + b)[2..] == a[2..] + b;
      assert CommentsAttached(a[2..]) by {
        forall i | 0 <= i < |a[2..]| && a[2..][i].Comment?
          ensures i + 1 < |a[2..]| && IsDocumentable(a[2..][i + 1])
        {
          assert a[2..][i] == a[i + 2];
        }
      }
      DocsAppend(a[2..], b);
    } else {
      assert (a + b)[0] == a[0] && (a + b)[1..] == a[1..] + b;
      assert CommentsAttached(a[1..]) by {
        forall i | 0 <= i < |a[1..]| && a[1..][i].Comment?
          ensures i + 1 < |a[1..]| && IsDocumentable(a[1..][i + 1])
        {
          assert a[1..][i] == a[i + 1];
        }
      }
      DocsAppend(a[1..], b);
    }
  }

  /** Once the enclosing struct is closed, what follows is not read. */
  lemma {:induction false} BodyOfClosed(a: seq<Line>, b: seq<Line>, e: int)
    requires Closes(a, e)
    ensures BodyOf(a + b, e) == BodyOf(a, e)
    decreases |a|
  {
    assert (a + b)[0] == a[0] && (a + b)[1..] == a[1..] + b;
    if e + Delta(a[0]) >= 0 {
      BodyOfClosed(a[1..], b, e + Delta(a[0]));
    }
  }

  /** Lines whose net change takes the depth below zero close the struct
      they sit in. */
  lemma {:induction false} ClosesByNet(a: seq<Line>, e: int)
    requires 0 <= e && e + Net(a) < 0
    ensures Closes(a, e)
    decreases |a|
  {
    if e + Delta(a[0]) >= 0 {
      ClosesByNet(a[1..], e + Delta(a[0]));
    }
  }

  /** Lines that never drop below the starting depth are read whole. */
  lemma {:induction false} BodyOfPrefix(a: seq<Line>, t: seq<Line>, e: int)
    requires StaysAbove(a, e, 0)
    ensures BodyOf(a + t, e) == a + BodyOf(t, e + Net(a))
    decreases |a|
  {
    if a == [] {
      assert a + t == t;
    } else {
      assert (a + t)[0] == a[0] && (a + t)[1..] == a[1..] + t;
      BodyOfPrefix(a[1..], t, e + Delta(a[0]));
    }
  }

  /** Once the enclosing struct is closed, what follows is not read. */
  lemma {:induction false} CloseOfClosed(a: seq<Line>, b: seq<Line>, e: int)
    requires Closes(a, e)
    ensures CloseOf(a + b, e) == CloseOf(a, e)
    decreases |a|
  {
    assert (a + b)[0] == a[0] && (a + b)[1..] == a[1..] + b;
    if e + Delta(a[0]) >= 0 {
      CloseOfClosed(a[1..], b, e + Delta(a[0]));
    }
  }

  /** Lines that never drop below the starting depth do not close the struct. */
  lemma {:induction false} CloseOfPrefix(a: seq<Line>, t: seq<Line>, e: int)
    requires StaysAbove(a, e, 0)
    ensures CloseOf(a + t, e) == CloseOf(t, e + Net(a))
    decreases |a|
  {
    if a == [] {
      assert a + t == t;
    } else {
      assert (a + t)[0] == a[0] && (a + t)[1..] == a[1..] + t;
      CloseOfPrefix(a[1..], t, e + Delta(a[0]));
    }
  }

  /** A struct opened on `l` and closed within `a` is read from `a` alone. */
  lemma NodeClosed(l: Line, a: seq<Line>, b: seq<Line>)
    requires Delta(l) > 0 ==> Closes(a, 0)
    ensures Node(l, a + b) == Node(l, a)
  {
    if Delta(l) > 0 {
      BodyOfClosed(a, b, 0);
      CloseOfClosed(a, b, 0);
    }
  }

  /** A suffix keeps every comment attached. */
  lemma CommentsAttachedSuffix(a: seq<Line>, k: nat)
    requires CommentsAttached(a) && k <= |a|
    ensures CommentsAttached(a[k..])
  {
    forall i | 0 <= i < |a[k..]| && a[k..][i].Comment?
      ensures i + 1 < |a[k..]| && IsDocumentable(a[k..][i + 1])
    {
      assert a[k..][i] == a[k + i];
    }
  }

  /** Lines that return to depth zero, with no comment left waiting for its
      declaration, are read back on their own. */
  lemma {:induction false} TreeFromAppend(a: seq<Line>, b: seq<Line>, d: int)
    requires d + Net(a) == 0 && CommentsAttached(a)
    ensures TreeFrom(a + b, d) == TreeFrom(a, d) + TreeFrom(b, 0)
    decreases |a|, 1
  {
    if a == [] {
      assert a + b == b;
    } else if d == 0 && a[0].Comment? {
      TreeFromAppendDocumented(a, b);
    } else {
      TreeFromAppendStep(a, b, d);
    }
  }

  /** `TreeFromAppend` when `a` starts with a comment read at depth zero: the
      comment and the declaration under it are read together. */
  lemma {:induction false} TreeFromAppendDocumented(a: seq<Line>, b: seq<Line>)
    requires a != [] && a[0].Comment? && Net(a) == 0 && CommentsAttached(a)
    ensures TreeFrom(a + b, 0) == TreeFrom(a, 0) + TreeFrom(b, 0)
    decreases |a|, 0
  {
    assert 1 < |a| && IsDocumentable(a[1]);
    var head := [Decl([a[0]], a[1], [], [])];
    assert (a + b)[0] == a[0] && (a + b)[1] == a[1] && (a + b)[2..] == a[2..] + b;
    assert a[1..][1..] == a[2..];
    assert Net(a[2..]) == 0;
    CommentsAttachedSuffix(a, 2);
    calc {
      TreeFrom(a + b, 0);
      head + TreeFrom(a[2..] + b, 0);
    == { TreeFromAppend(a[2..], b, 0); }
      head + (TreeFrom(a[2..], 0) + TreeFrom(b, 0));
      (head + TreeFrom(a[2..], 0)) + TreeFrom(b, 0);
      TreeFrom(a, 0) + TreeFrom(b, 0);
    }
  }

  /** `TreeFromAppend` for any other first line: it is read on its own, and
      a struct it opens is closed again inside `a`. */
  lemma {:induction false} TreeFromAppendStep(a: seq<Line>, b: seq<Line>, d: int)
    requires a != [] && !(d == 0 && a[0].Comment?) && d + Net(a) == 0 && CommentsAttached(a)
    ensures TreeFrom(a + b, d) == TreeFrom(a, d) + TreeFrom(b, 0)
    decreases |a|, 0
  {
    var head := if d == 0 then [Node(a[0], a[1..])] else [];
    var d' := d + Delta(a[0]);
    assert (a + b)[0] == a[0] && (a + b)[1..] == a[1..] + b;
    if d == 0 {
      if Delta(a[0]) > 0 {
        ClosesByNet(a[1..], 0);
      }
      NodeClosed(a[0], a[1..], b);
    }
    CommentsAttachedSuffix(a, 1);
    calc {
      TreeFrom(a + b, d);
      head + TreeFrom(a[1..] + b, d');
    == { TreeFromAppend(a[1..], b, d'); }
      head + (TreeFrom(a[1..], d') + TreeFrom(b, 0));
      (head + TreeFrom(a[1..], d')) + TreeFrom(b, 0);
      TreeFrom(a, d) + TreeFrom(b, 0);
    }
  }

  /** Balanced lines whose comments are all attached are read back on their
      own, whatever follows them. */
  lemma TreeAppend(a: seq<Line>, b: seq<Line>)
    requires Balanced(a) && CommentsAttached(a)
    ensures Tree(a + b) == Tree(a) + Tree(b)
  {
    TreeFromAppend(a, b, 0);
  }

  /** Three runs of lines, the first two balanced with their comments
      attached, read back as the three runs' declarations in turn. */
  lemma TreeOfParts(a: seq<Line>, b: seq<Line>, c: seq<Line>, x: seq<Decl>, y: seq<Decl>, z: seq<Decl>)
    requires Balanced(a) && CommentsAttached(a) && Tree(a) == x
    requires Balanced(b) && CommentsAttached(b) && Tree(b) == y
    requires Tree(c) == z
    ensures Tree(a + b + c) == x + y + z
  {
    assert a + b + c == a + (b + c);
    TreeAppend(b, c);
    TreeAppend(a, b + c);
  }

  /** Five runs of lines, the first four balanced with their comments
      attached, read back as the five runs' declarations in turn. */
  lemma TreeOfFive(a: seq<Line>, b: seq<Line>, c: seq<Line>, d: seq<Line>, e: seq<Line>,
                   v: seq<Decl>, w: seq<Decl>, x: seq<Decl>, y: seq<Decl>, z: seq<Decl>)
    requires Balanced(a) && CommentsAttached(a) && Tree(a) == v
    requires Balanced(b) && CommentsAttached(b) && Tree(b) == w
    requires Balanced(c) && CommentsAttached(c) && Tree(c) == x
    requires Balanced(d) && CommentsAttached(d) && Tree(d) == y
    requires Tree(e) == z
    ensures Tree(a + b + c + d + e) == v + w + x + y + z
  {
    assert a + b + c + d + e == a + (b + (c + (d + e)));
    assert v + w + x + y + z == v + (w + (x + (y + z)));
    TreeAppend(d, e);
    TreeAppend(c, d + e);
    TreeAppend(b, c + (d + e));
    TreeAppend(a, b + (c + (d + e)));
  }

  /** Lines read strictly inside a nested struct give no declaration at the
      outer level. */
  lemma {:induction false} TreeFromDeep(a: seq<Line>, t: seq<Line>, d: int)
    requires 1 <= d && StaysAbove(a, d, 1)
    ensures TreeFrom(a + t, d) == TreeFrom(t, d + Net(a))
    decreases |a|
  {
    if a == [] {
      assert a + t == t;
    } else {
      assert (a + t)[0] == a[0] && (a + t)[1..] == a[1..] + t;
      TreeFromDeep(a[1..], t, d + Delta(a[0]));
    }
  }

  /** A balanced body between an opening and a closing line reads back as one
      declaration: the opening line, holding the body read back and the
      closing line. */
  lemma TreeBlock(open: Line, inner: seq<Line>, close: Line)
    requires Delta(open) == 1 && Delta(close) == -1 && Balanced(inner)
    ensures Tree([open] + inner + [close]) == [Decl([], open, Tree(inner), [close])]
  {
    var rest := inner + [close];
    var r := [open] + rest;
    assert [open] + inner + [close] == r;
    assert r[0] == open && r[1..] == rest;
    assert TreeFrom(r, 0) == [Node(open, rest)] + TreeFrom(rest, 1);
    BodyOfPrefix(inner, [close], 0);
    CloseOfPrefix(inner, [close], 0);
    assert BodyOf([close], 0) == [] && CloseOf([close], 0) == [close];
    assert BodyOf(rest, 0) == inner + [] == inner;
    StaysAboveShift(inner, 0, 0, 1);
    TreeFromDeep(inner, [close], 1);
    assert TreeFrom([close], 1) == [] + TreeFrom([], 0);
  }

  /** A line that opens nothing, closes nothing and is no comment reads back
      as itself, undocumented. */
  lemma FlatTree(l: Line)
    requires Delta(l) == 0 && !l.Comment?
    ensures Tree([l]) == [Decl([], l, [], [])]
    ensures Balanced([l]) && CommentsAttached([l])
  {
    assert [l][1..] == [];
    assert TreeFrom([l], 0) == [Node(l, [])] + TreeFrom([], 0);
    FlatLine(l);
  }

  /** Lines that return to depth zero can be read for structs on their own. */
  lemma {:induction false} StructsFromAppend(a: seq<Line>, b: seq<Line>, d: int)
    requires d + Net(a) == 0
    ensures StructsFrom(a + b, d) == StructsFrom(a, d) + StructsFrom(b, 0)
    decreases |a|
  {
    if a == [] {
      assert a + b == b;
    } else {
      var head := if d == 0 && a[0].StructOpen? then [StructDecl(a[0].name, Members(BodyOf(a[1..], 0)))] else [];
      var d' := d + Delta(a[0]);
      assert (a + b)[0] == a[0] && (a + b)[1..] == a[1..] + b;
      if d == 0 && a[0].StructOpen? {
        // The struct opened here is closed again inside `a`.
        ClosesByNet(a[1..], 0);
        BodyOfClosed(a[1..], b, 0);
      }
      calc {
        StructsFrom(a + b, d);
        head + StructsFrom(a[1..] + b, d');
      == { StructsFromAppend(a[1..], b, d'); }
        head + (StructsFrom(a[1..], d') + StructsFrom(b, 0));
        (head + StructsFrom(a[1..], d')) + StructsFrom(b, 0);
        StructsFrom(a, d) + StructsFrom(b, 0);
      }
    }
  }

  /** Structless balanced lines, then balanced lines declaring `x`, then
      lines declaring `y`, together declare `x` then `y`. */
  lemma StructsOfParts(a: seq<Line>, b: seq<Line>, c: seq<Line>, x: seq<StructDecl>, y: seq<StructDecl>)
    requires Balanced(a) && Structs(a) == []
    requires Balanced(b) && Structs(b) == x
    requires Structs(c) == y
    ensures Structs(a + b + c) == x + y
  {
    NetAppend(a, b);
    StructsFromAppend(a + b, c, 0);
    StructsFromAppend(a, b, 0);
  }

  /** Lines that open no top-level struct declare none. */
  lemma {:induction false} NoStructs(a: seq<Line>, d: int)
    requires forall l :: l in a ==> !l.StructOpen?
    ensures StructsFrom(a, d) == []
    decreases |a|
  {
    if a != [] {
      assert a[0] in a;
      assert forall l :: l in a[1..] ==> l in a;
      NoStructs(a[1..], d + Delta(a[0]));
    }
  }

  /** A top-level struct around a balanced body: one struct, declaring the
      body's own members. */
  lemma StructBlock(n: string, inner: seq<Line>)
    requires Balanced(inner) && StructLines(inner)
    ensures Structs([StructOpen(n)] + inner + [StructClose]) == [StructDecl(n, Members(inner))]
  {
    var rest := inner + [StructClose];
    var r := [StructOpen(n)] + rest;
    assert [StructOpen(n)] + inner + [StructClose] == r;
    assert r[0] == StructOpen(n) && r[1..] == rest;
    BodyOfPrefix(inner, [StructClose], 0);
    assert BodyOf([StructClose], 0) == [];
    assert BodyOf(rest, 0) == inner;
    NoStructs(rest, 1);
  }

  /** A line that is neither a comment nor a declaration carries no documentation. */
  lemma UndocumentableSkipped(l: Line, rest: seq<Line>)
    requires !l.Comment? && !IsDocumentable(l)
    ensures Docs([l] + rest) == Docs(rest)
  {
    assert ([l] + rest)[0] == l && ([l] + rest)[1..] == rest;
  }

  lemma {:induction false} DeclsAppend(a: seq<Line>, b: seq<Line>)
    ensures Decls(a + b) == Decls(a) + Decls(b)
  {
    if a != [] {
      assert (a + b)[1..] == a[1..] + b;
      DeclsAppend(a[1..], b);
    } else {
      assert a + b == b;
    }
  }

  lemma {:induction false} ConstsAppend(a: seq<Line>, b: seq<Line>)
    ensures Consts(a + b) == Consts(a) + Consts(b)
  {
    if a != [] {
      assert (a + b)[1..] == a[1..] + b;
      ConstsAppend(a[1..], b);
    } else {
      assert a + b == b;
    }
  }

  /** A struct body declares no type and no constant. */
  lemma {:induction false} StructLinesDeclareNothing(a: seq<Line>)
    requires StructLines(a)
    ensures Decls(a) == [] && Consts(a) == []
  {
    if a != [] {
      assert IsStructLine(a[0]);
      StructLinesDeclareNothing(a[1..]);
    }
  }
}
