/** The key that makes a posting attempt unique (src/data_entry/safe_posting.py). */
module IdempotencyKeys {
  import opened Text

  /** SHA-256 loses nothing of the text it digests. */
  datatype TextDigest = Sha256(text: string)

  /** An empty external source means that the document is its own. */
  datatype Document = Document(id: string, externalSource: string, category: string)

  function Source(doc: Document): string {
    if doc.externalSource == "" then doc.id else doc.externalSource
  }

  function Fields(doc: Document, target: string): seq<string> {
    [doc.id, Source(doc), doc.category, target]
  }

  function BuildIdempotencyKey(doc: Document, target: string): TextDigest {
    Sha256(Join(Fields(doc, target), '|'))
  }

  // ------------------------------------------------------------------------------------------
  // Counting separators
  // ------------------------------------------------------------------------------------------

  function Bars(s: string): nat {
    if s == [] then 0 else (if s[0] == '|' then 1 else 0) + Bars(s[1..])
  }

  lemma {:induction false} BarsIff(s: string)
    ensures Bars(s) == 0 <==> '|' !in s
  {
    if s != [] {
      BarsIff(s[1..]);
      assert s == [s[0]] + s[1..];
    }
  }

  lemma {:induction false} BarsConcat(a: string, b: string)
    ensures Bars(a + b) == Bars(a) + Bars(b)
  {
    if a == [] {
      assert a + b == b;
    } else {
      assert (a + b)[1..] == a[1..] + b;
      BarsConcat(a[1..], b);
    }
  }

  function TotalBars(fields: seq<string>): nat {
    if fields == [] then 0 else Bars(fields[0]) + TotalBars(fields[1..])
  }

  lemma {:induction false} BarsOfJoin(fields: seq<string>)
    requires fields != []
    ensures Bars(Join(fields, '|')) == |fields| - 1 + TotalBars(fields)
  {
    if |fields| > 1 {
      BarsOfJoin(fields[1..]);
      BarsConcat(fields[0] + ['|'], Join(fields[1..], '|'));
      BarsConcat(fields[0], ['|']);
    }
  }

  predicate Free(fields: seq<string>) {
    forall i :: 0 <= i < |fields| ==> '|' !in fields[i]
  }

  lemma {:induction false} TotalBarsIff(fields: seq<string>)
    ensures TotalBars(fields) == 0 <==> Free(fields)
  {
    if fields != [] {
      BarsIff(fields[0]);
      TotalBarsIff(fields[1..]);
      assert Free(fields) <==> '|' !in fields[0] && Free(fields[1..]) by {
        assert fields == [fields[0]] + fields[1..];
        assert forall i :: 1 <= i < |fields| ==> fields[i] == fields[1..][i - 1];
      }
    }
  }

  /** Fields without the separator are read off their join, whatever the other fields hold. */
  lemma FreeFieldsAreUnique(a: seq<string>, b: seq<string>)
    requires |a| == |b| > 0 && Free(a) && Join(a, '|') == Join(b, '|')
    ensures a == b
  {
    BarsOfJoin(a);
    BarsOfJoin(b);
    TotalBarsIff(a);
    TotalBarsIff(b);
    JoinInjective(a, b, '|');
  }

  /** A field with a separator can be read as two. */
  lemma FirstFieldOrMore(a: string, x: string, b: string, y: string) returns (z: string)
    requires '|' !in a && a + ['|'] + x == b + ['|'] + y
    ensures (b == a && x == y) || (b == a + ['|'] + z && x == z + ['|'] + y)
  {
    var s := a + ['|'] + x;
    z := [];
    assert forall i :: 0 <= i < |a| ==> s[i] == a[i];
    assert s[|b|] == '|';
    if |b| > |a| {
      z := b[|a| + 1..];
      assert b == s[..|b|] && s[|a|] == '|';
      assert b == a + ['|'] + z;
      assert x == s[|a| + 1..];
    } else {
      assert b == s[..|b|] && x == s[|a| + 1..] && y == s[|b| + 1..];
    }
  }

  // ------------------------------------------------------------------------------------------
  // Which keys belong to one document and target only
  // ------------------------------------------------------------------------------------------

  /** No separator anywhere, or just a separator for a source. */
  predicate Unambiguous(doc: Document, target: string) {
    && '|' !in doc.id && '|' !in doc.category && '|' !in target
    && ('|' !in Source(doc) || (Source(doc) == "|" && doc.id != ""))
  }

  lemma JoinFour(a: string, b: string, c: string, d: string)
    ensures Join([a, b, c, d], '|') == a + ['|'] + (b + ['|'] + (c + ['|'] + d))
    ensures Join([b, c, d], '|') == b + ['|'] + (c + ['|'] + d)
  {
    assert [a, b, c, d][1..] == [b, c, d] && [b, c, d][1..] == [c, d] && [c, d][1..] == [d];
    assert Join([c, d], '|') == c + ['|'] + d;
  }

  /** A separator for a source is read off the key as well: the alternatives have no source. */
  lemma BarSourceIsUnique(doc: Document, target: string, other: Document, otherTarget: string)
    requires Unambiguous(doc, target) && Source(doc) == "|"
    requires Join(Fields(doc, target), '|') == Join(Fields(other, otherTarget), '|')
    ensures Fields(doc, target) == Fields(other, otherTarget)
  {
    var c, t, source := doc.category, target, Source(other);
    JoinFour(doc.id, "|", c, t);
    JoinFour(other.id, source, other.category, otherTarget);
    JoinFour("", "", c, t);
    var tail := "|" + ['|'] + (c + ['|'] + t);
    var otherTail := source + ['|'] + (other.category + ['|'] + otherTarget);
    assert tail == "" + ['|'] + ("" + ['|'] + (c + ['|'] + t));
    var z := FirstFieldOrMore(doc.id, tail, other.id, otherTail);
    if other.id == doc.id && tail == otherTail {
      SameIdBarSource(c, t, source, other.category, otherTarget);
    } else {
      JoinFour(z, source, other.category, otherTarget);
      FreeFieldsAreUnique(["", "", c, t], [z, source, other.category, otherTarget]);
      assert false;
    }
  }

  lemma SameIdBarSource(c: string, t: string, source: string, otherC: string, otherT: string)
    requires source != "" && '|' !in c && '|' !in t
    requires "|" + ['|'] + (c + ['|'] + t) == source + ['|'] + (otherC + ['|'] + otherT)
    ensures source == "|" && otherC == c && otherT == t
  {
    JoinFour("", "", c, t);
    var rest := "" + ['|'] + (c + ['|'] + t);
    assert "|" + ['|'] + (c + ['|'] + t) == "" + ['|'] + rest;
    var z := FirstFieldOrMore("", rest, source, otherC + ['|'] + otherT);
    JoinFour("", z, otherC, otherT);
    FreeFieldsAreUnique(["", c, t], [z, otherC, otherT]);
    assert ["", c, t][0] == z && ["", c, t][1] == otherC && ["", c, t][2] == otherT;
  }

  /** With an unambiguous document and target on one side, keys are equal exactly when all fields are. */
  lemma SameKeyIff(doc: Document, target: string, other: Document, otherTarget: string)
    requires Unambiguous(doc, target)
    ensures BuildIdempotencyKey(doc, target) == BuildIdempotencyKey(other, otherTarget)
       <==> Fields(doc, target) == Fields(other, otherTarget)
  {
    if Join(Fields(doc, target), '|') == Join(Fields(other, otherTarget), '|') {
      if Source(doc) == "|" {
        BarSourceIsUnique(doc, target, other, otherTarget);
      } else {
        FreeFieldsAreUnique(Fields(doc, target), Fields(other, otherTarget));
      }
    }
  }

  predicate Collide(doc: Document, target: string, other: Document, otherTarget: string) {
    && BuildIdempotencyKey(doc, target) == BuildIdempotencyKey(other, otherTarget)
    && Fields(doc, target) != Fields(other, otherTarget)
  }

  lemma SplitAtBar(s: string) returns (a: string, b: string)
    requires '|' in s
    ensures s == a + ['|'] + b
  {
    var i :| 0 <= i < |s| && s[i] == '|';
    a, b := s[..i], s[i + 1..];
  }

  /** A separator in the target is taken for the one before it. */
  lemma TargetCollides(doc: Document, a: string, b: string)
    ensures Collide(doc, a + ['|'] + b, doc.(category := doc.category + ['|'] + a), b)
  {
    var other := doc.(category := doc.category + ['|'] + a);
    JoinFour(doc.id, Source(doc), doc.category, a + ['|'] + b);
    JoinFour(doc.id, Source(doc), other.category, b);
    assert Fields(doc, a + ['|'] + b)[3] != Fields(other, b)[3];
  }

  /** A separator in the category is taken for the one before the target. */
  lemma CategoryCollides(id: string, source: string, a: string, b: string, target: string)
    ensures Collide(Document(id, source, a + ['|'] + b), target, Document(id, source, a), b + ['|'] + target)
  {
    var doc, other := Document(id, source, a + ['|'] + b), Document(id, source, a);
    JoinFour(id, Source(doc), doc.category, target);
    JoinFour(id, Source(other), a, b + ['|'] + target);
    assert Fields(doc, target)[2] != Fields(other, b + ['|'] + target)[2];
  }

  lemma IdCollides(doc: Document, a: string, b: string, target: string)
    requires doc.id == a + ['|'] + b
    ensures Collide(doc, target, Document(a, b + ['|'] + Source(doc), doc.category), target)
  {
    var other := Document(a, b + ['|'] + Source(doc), doc.category);
    JoinFour(doc.id, Source(doc), doc.category, target);
    JoinFour(a, Source(other), doc.category, target);
    assert Fields(doc, target)[0] != Fields(other, target)[0];
  }

  lemma SourceCollidesBefore(doc: Document, a: string, b: string, target: string)
    requires Source(doc) == a + ['|'] + b && b != ""
    ensures Collide(doc, target, Document(doc.id + ['|'] + a, b, doc.category), target)
  {
    var other := Document(doc.id + ['|'] + a, b, doc.category);
    JoinFour(doc.id, Source(doc), doc.category, target);
    JoinFour(other.id, b, doc.category, target);
    assert Fields(doc, target)[0] != Fields(other, target)[0];
  }

  lemma SourceCollidesAfter(doc: Document, a: string, b: string, target: string)
    requires Source(doc) == a + ['|'] + b && (a != "" || doc.id == "")
    ensures Collide(doc, target, Document(doc.id, a, b + ['|'] + doc.category), target)
  {
    var other := Document(doc.id, a, b + ['|'] + doc.category);
    assert Source(other) == a;
    JoinFour(doc.id, Source(doc), doc.category, target);
    JoinFour(doc.id, a, other.category, target);
    assert Fields(doc, target)[1] != Fields(other, target)[1];
  }

  lemma AmbiguousCollides(doc: Document, target: string) returns (other: Document, otherTarget: string)
    requires !Unambiguous(doc, target)
    ensures Collide(doc, target, other, otherTarget)
  {
    if '|' in target {
      var a, b := SplitAtBar(target);
      TargetCollides(doc, a, b);
      other, otherTarget := doc.(category := doc.category + ['|'] + a), b;
    } else if '|' in doc.category {
      var a, b := SplitAtBar(doc.category);
      CategoryCollides(doc.id, doc.externalSource, a, b, target);
      other, otherTarget := Document(doc.id, doc.externalSource, a), b + ['|'] + target;
    } else if '|' in doc.id {
      var a, b := SplitAtBar(doc.id);
      IdCollides(doc, a, b, target);
      other, otherTarget := Document(a, b + ['|'] + Source(doc), doc.category), target;
    } else {
      var a, b := SplitAtBar(Source(doc));
      if b != "" {
        SourceCollidesBefore(doc, a, b, target);
        other, otherTarget := Document(doc.id + ['|'] + a, b, doc.category), target;
      } else {
        SourceCollidesAfter(doc, a, b, target);
        other, otherTarget := Document(doc.id, a, b + ['|'] + doc.category), target;
      }
    }
  }

  /**
   * A document and target share their key with others exactly when one of their four fields contains
   * the separator, except where the source is a single separator: then no reading but one has a source.
   */
  lemma KeySharedIff(doc: Document, target: string)
    ensures (exists other, otherTarget :: Collide(doc, target, other, otherTarget)) <==> !Unambiguous(doc, target)
  {
    if Unambiguous(doc, target) {
      forall other, otherTarget ensures !Collide(doc, target, other, otherTarget) {
        SameKeyIff(doc, target, other, otherTarget);
      }
    } else {
      var other, otherTarget := AmbiguousCollides(doc, target);
      assert Collide(doc, target, other, otherTarget);
    }
  }
}
