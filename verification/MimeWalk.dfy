/** Body and attachment extraction: the walk over the MIME tree in app/messages/parser.py.
    Header and payload decoding are inputs: a leaf carries its decoded data. */
module MimeWalk {
  import opened Options

  datatype Attachment = Attachment(filename: Option<string>, contentType: string, payload: string,
                                   isInline: bool, contentId: Option<string>)

  datatype Part =
    | Multipart(subparts: seq<Part>)
    | Leaf(contentType: string, disposition: string, text: string, payload: string,
           filename: Option<string>, contentId: Option<string>)

  /** Explicit attachments, and everything that is neither text nor a container. */
  predicate IsAttachment(p: Part)
    requires p.Leaf?
  {
    p.disposition == "attachment" || !("text/" <= p.contentType || "multipart/" <= p.contentType)
  }

  function ToAttachment(p: Part): Attachment
    requires p.Leaf?
  {
    Attachment(p.filename, p.contentType, p.payload, p.disposition == "inline", p.contentId)
  }

  // ---------------------------------------------------------------- flattening

  /** The leaves of a tree in preorder. */
  function Leaves(p: Part): (r: seq<Part>)
    ensures forall x | x in r :: x.Leaf?
    decreases p, 0
  {
    match p
    case Multipart(subparts) => LeavesOf(subparts)
    case Leaf(_, _, _, _, _, _) => [p]
  }

  function LeavesOf(ps: seq<Part>): (r: seq<Part>)
    ensures forall x | x in r :: x.Leaf?
    decreases ps, 0
  {
    if ps == [] then []
    else LeavesOf(ps[..|ps| - 1]) + Leaves(ps[|ps| - 1])
  }

  /** All attachment leaves, in order. */
  function AttachmentsOf(leaves: seq<Part>): seq<Attachment>
    requires forall x | x in leaves :: x.Leaf?
  {
    if leaves == [] then []
    else
      var last := leaves[|leaves| - 1];
      AttachmentsOf(leaves[..|leaves| - 1]) + if IsAttachment(last) then [ToAttachment(last)] else []
  }

  predicate IsBody(p: Part, contentType: string)
    requires p.Leaf?
  {
    p.contentType == contentType && !IsAttachment(p)
  }

  /** The text of the first leaf of the type that is not an attachment. */
  function FirstBody(leaves: seq<Part>, contentType: string): Option<string>
    requires forall x | x in leaves :: x.Leaf?
  {
    if leaves == [] then None
    else if IsBody(leaves[0], contentType) then Some(leaves[0].text)
    else FirstBody(leaves[1..], contentType)
  }

  function OrElse(a: Option<string>, b: Option<string>): Option<string>
  {
    if a.Some? then a else b
  }

  lemma {:induction false} AttachmentsAppend(a: seq<Part>, b: seq<Part>)
    requires forall x | x in a + b :: x.Leaf?
    ensures (forall x | x in a :: x in a + b) && (forall x | x in b :: x in a + b)
    ensures AttachmentsOf(a + b) == AttachmentsOf(a) + AttachmentsOf(b)
  {
    if b == [] {
      assert a + b == a;
    } else {
      var front := b[..|b| - 1];
      assert (a + b)[..|a + b| - 1] == a + front;
      assert forall x | x in a + front :: x in a + b;
      AttachmentsAppend(a, front);
    }
  }

  lemma {:induction false} FirstBodyAppend(a: seq<Part>, b: seq<Part>, contentType: string)
    requires (forall x | x in a :: x.Leaf?) && (forall x | x in b :: x.Leaf?)
    ensures FirstBody(a + b, contentType) == OrElse(FirstBody(a, contentType), FirstBody(b, contentType))
  {
    if a == [] {
      assert a + b == b;
    } else {
      assert (a + b)[1..] == a[1..] + b;
      FirstBodyAppend(a[1..], b, contentType);
    }
  }

  /** What has been collected so far: the first body of each type and all attachments. */
  datatype Bodies = Bodies(textPlain: Option<string>, textHtml: Option<string>, attachments: seq<Attachment>)

  function BodiesOf(leaves: seq<Part>): Bodies
    requires forall x | x in leaves :: x.Leaf?
  {
    Bodies(FirstBody(leaves, "text/plain"), FirstBody(leaves, "text/html"), AttachmentsOf(leaves))
  }

  function Merge(a: Bodies, b: Bodies): Bodies
  {
    Bodies(OrElse(a.textPlain, b.textPlain), OrElse(a.textHtml, b.textHtml), a.attachments + b.attachments)
  }

  lemma MergeAssociative(a: Bodies, b: Bodies, c: Bodies)
    ensures Merge(Merge(a, b), c) == Merge(a, Merge(b, c))
  {
    assert a.attachments + b.attachments + c.attachments == a.attachments + (b.attachments + c.attachments);
  }

  lemma MergeNothing(a: Bodies)
    ensures Merge(a, BodiesOf([])) == a && Merge(BodiesOf([]), a) == a
  {
    assert a.attachments + [] == a.attachments && [] + a.attachments == a.attachments;
  }

  // ---------------------------------------------------------------- the walk

  class BodyExtractor {
    var textPlain: Option<string>
    var textHtml: Option<string>
    var hasTextPlain: bool
    var hasTextHtml: bool
    var attachments: seq<Attachment>

    /** The flags say whether a body was found. */
    ghost predicate Valid()
      reads this
    {
      hasTextPlain == textPlain.Some? && hasTextHtml == textHtml.Some?
    }

    function Collected(): Bodies
      reads this
    {
      Bodies(textPlain, textHtml, attachments)
    }

    constructor ()
      ensures Valid() && Collected() == BodiesOf([])
    {
      textPlain, textHtml, hasTextPlain, hasTextHtml, attachments := None, None, false, false, [];
    }

    /** Visits a part: its attachments are appended in preorder, and its first bodies fill
        what is still missing. */
    method Walk(part: Part)
      requires Valid()
      modifies this
      ensures Valid()
      ensures Collected() == Merge(old(Collected()), BodiesOf(Leaves(part)))
      decreases part
    {
      match part
      case Multipart(subparts) =>
        var i := 0;
        MergeNothing(Collected());
        while i < |subparts|
          invariant 0 <= i <= |subparts|
          invariant Valid()
          invariant Collected() == Merge(old(Collected()), BodiesOf(LeavesOf(subparts[..i])))
        {
          MergeAssociative(old(Collected()), BodiesOf(LeavesOf(subparts[..i])), BodiesOf(Leaves(subparts[i])));
          OneMore(subparts, i);
          Walk(subparts[i]);
          i := i + 1;
        }
        assert subparts[..i] == subparts;
      case Leaf(_, _, _, _, _, _) =>
        VisitLeaf(part);
    }

    method VisitLeaf(part: Part)
      requires Valid() && part.Leaf?
      modifies this
      ensures Valid()
      ensures Collected() == Merge(old(Collected()), BodiesOf([part]))
    {
      SingleLeaf(part);
      assert attachments + [] == attachments;
      if IsAttachment(part) {
        attachments := attachments + [ToAttachment(part)];
      } else if part.contentType == "text/plain" && textPlain.None? {
        textPlain := Some(part.text);
        hasTextPlain := true;
      } else if part.contentType == "text/html" && textHtml.None? {
        textHtml := Some(part.text);
        hasTextHtml := true;
      }
    }
  }

  lemma SingleLeaf(p: Part)
    requires p.Leaf?
    ensures BodiesOf([p]) == Bodies(if IsBody(p, "text/plain") then Some(p.text) else None,
                                    if IsBody(p, "text/html") then Some(p.text) else None,
                                    if IsAttachment(p) then [ToAttachment(p)] else [])
  {
    var leaves := [p];
    assert leaves[1..] == [] && leaves[..|leaves| - 1] == [];
    var own := if IsAttachment(p) then [ToAttachment(p)] else [];
    assert AttachmentsOf(leaves) == [] + own == own;
    assert FirstBody(leaves, "text/plain") == if IsBody(p, "text/plain") then Some(p.text) else None;
    assert FirstBody(leaves, "text/html") == if IsBody(p, "text/html") then Some(p.text) else None;
  }

  lemma OneMore(ps: seq<Part>, i: nat)
    requires i < |ps|
    ensures BodiesOf(LeavesOf(ps[..i + 1])) == Merge(BodiesOf(LeavesOf(ps[..i])), BodiesOf(Leaves(ps[i])))
  {
    var a, b := LeavesOf(ps[..i]), Leaves(ps[i]);
    assert ps[..i + 1][..i] == ps[..i];
    AttachmentsAppend(a, b);
    FirstBodyAppend(a, b, "text/plain");
    FirstBodyAppend(a, b, "text/html");
  }

  /** The body texts and attachments of a message. */
  method ExtractBodies(message: Part)
    returns (textPlain: Option<string>, textHtml: Option<string>, attachments: seq<Attachment>)
    ensures textPlain == FirstBody(Leaves(message), "text/plain")
    ensures textHtml == FirstBody(Leaves(message), "text/html")
    ensures attachments == AttachmentsOf(Leaves(message))
  {
    var x := new BodyExtractor();
    x.Walk(message);
    MergeNothing(BodiesOf(Leaves(message)));
    return x.textPlain, x.textHtml, x.attachments;
  }

  // ---------------------------------------------------------------- what flattening means

  /** A leaf is an attachment exactly when it is marked as one, or is neither text nor a
      container; its record keeps name, type, payload and content id, and whether it is inline. */
  lemma AttachmentMeaning(p: Part)
    requires p.Leaf?
    ensures AttachmentsOf([p])
         == if p.disposition == "attachment" || (!("text/" <= p.contentType) && !("multipart/" <= p.contentType))
            then [Attachment(p.filename, p.contentType, p.payload, p.disposition == "inline", p.contentId)] else []
    ensures forall t :: IsBody(p, t)
                        <==> p.contentType == t && p.disposition != "attachment" && ("text/" <= t || "multipart/" <= t)
  {
    SingleLeaf(p);
  }

  /** The leaves of a container are those of its parts, one after the other. */
  lemma {:induction false} LeavesInOrder(a: seq<Part>, b: seq<Part>, p: Part)
    ensures Leaves(Multipart(a + b)) == Leaves(Multipart(a)) + Leaves(Multipart(b))
    ensures Leaves(Multipart([p])) == Leaves(p)
    ensures p.Leaf? ==> Leaves(p) == [p]
    decreases |b|
  {
    assert [p][..0] == [];
    assert LeavesOf([p]) == LeavesOf([]) + Leaves(p);
    if b == [] {
      assert a + b == a;
    } else {
      var front := b[..|b| - 1];
      assert (a + b)[..|a + b| - 1] == a + front;
      LeavesInOrder(a, front, p);
    }
  }

  /** A body is found exactly when some leaf is one, and it is the first such leaf's. */
  lemma {:induction false} FirstBodyMeaning(leaves: seq<Part>, contentType: string)
    requires forall x | x in leaves :: x.Leaf?
    ensures FirstBody(leaves, contentType).Some? <==> exists i :: 0 <= i < |leaves| && IsBody(leaves[i], contentType)
    ensures forall i | 0 <= i < |leaves| && IsBody(leaves[i], contentType)
                       && (forall j | 0 <= j < i :: !IsBody(leaves[j], contentType)) ::
              FirstBody(leaves, contentType) == Some(leaves[i].text)
  {
    if leaves != [] {
      FirstBodyMeaning(leaves[1..], contentType);
      assert forall i | 1 <= i < |leaves| :: leaves[i] == leaves[1..][i - 1];
      if i :| 0 < i < |leaves| && IsBody(leaves[i], contentType) {
        assert IsBody(leaves[1..][i - 1], contentType);
      }
      if FirstBody(leaves[1..], contentType).Some? {
        var i :| 0 <= i < |leaves[1..]| && IsBody(leaves[1..][i], contentType);
        assert IsBody(leaves[i + 1], contentType);
      }
    }
  }
}
