/** What it takes for an image to be right although a stretch of transactions is missing from it. */
module SqliteLoss {
  import opened Prelude
  import opened SqliteTypes
  import opened SqliteImage

  lemma SameViewReflexive(a: Image)
    ensures SameView(a, a)
  {
  }

  lemma SameViewSymmetric(a: Image, b: Image)
    requires SameView(a, b)
    ensures SameView(b, a)
  {
    forall p: nat | p <= b.dbSize ensures Get(b.pages, p) == Get(a.pages, p) {
    }
  }

  lemma SameViewTransitive(a: Image, b: Image, c: Image)
    requires SameView(a, b) && SameView(b, c)
    ensures SameView(a, c)
  {
    forall p: nat | p <= a.dbSize ensures Get(a.pages, p) == Get(c.pages, p) {
      assert Get(a.pages, p) == Get(b.pages, p);
    }
  }

  /** Comparing with either of two images that look alike gives the same answer. */
  lemma SameViewAs(x: Image, a: Image, b: Image)
    requires SameView(a, b)
    ensures SameView(x, a) <==> SameView(x, b)
  {
    if SameView(x, a) {
      SameViewTransitive(x, a, b);
    }
    if SameView(x, b) {
      SameViewSymmetric(a, b);
      SameViewTransitive(x, b, a);
    }
  }

  /** Every page within the final size that the lost transactions wrote is rewritten by the kept ones behind them, or
      was the same in the base all along. */
  predicate Covers(base: Image, lost: seq<Delta>, kept: seq<Delta>) {
    forall p: nat :: p <= SizeAfter(base.dbSize, kept) && p in BuildAll(lost).pages ==>
      p in BuildAll(kept).pages || Get(base.pages, p) == Some(BuildAll(lost).pages[p])
  }

  lemma PageAfter(img: Image, deltas: seq<Delta>, p: nat)
    ensures Get(ApplyAll(img, deltas).pages, p)
         == if p in BuildAll(deltas).pages then Some(BuildAll(deltas).pages[p]) else Get(img.pages, p)
  {
    BuilderIsFold(img, deltas);
  }

  lemma HeadAfter(a: Image, b: Image, deltas: seq<Delta>)
    requires deltas != []
    ensures var (x, y) := (ApplyAll(a, deltas), ApplyAll(b, deltas));
            x.pageSize == y.pageSize && x.dbSize == y.dbSize && x.txid == y.txid
              && x.dbSize == SizeAfter(a.dbSize, deltas)
  {
  }

  /** Applying only the kept transactions looks like applying all of them if and only if the lost ones are covered. */
  lemma DroppedIff(base: Image, lost: seq<Delta>, kept: seq<Delta>)
    requires kept != []
    ensures SameView(ApplyAll(base, kept), ApplyAll(ApplyAll(base, lost), kept)) <==> Covers(base, lost, kept)
  {
    var x, y := ApplyAll(base, kept), ApplyAll(ApplyAll(base, lost), kept);
    HeadAfter(base, ApplyAll(base, lost), kept);
    forall p: nat
      ensures Get(x.pages, p) == Get(y.pages, p)
              <==> (p in BuildAll(lost).pages ==>
                    p in BuildAll(kept).pages || Get(base.pages, p) == Some(BuildAll(lost).pages[p]))
    {
      PageAfter(base, kept, p);
      PageAfter(ApplyAll(base, lost), kept, p);
      PageAfter(base, lost, p);
    }
  }

  lemma ComparedAlike(x: Image, a: Image, b: Image)
    requires SameView(x, a)
    ensures SameView(x, b) <==> SameView(a, b)
  {
    if SameView(x, b) {
      SameViewSymmetric(x, a);
      SameViewTransitive(a, x, b);
    }
    if SameView(a, b) {
      SameViewTransitive(x, a, b);
    }
  }

  /** An image made of the base and the kept transactions looks like the truth if and only if the lost ones are covered.
      */
  lemma RightIff(x: Image, base: Image, lost: seq<Delta>, kept: seq<Delta>, truth: Image)
    requires kept != [] && SameView(x, ApplyAll(base, kept)) && SameView(ApplyAll(ApplyAll(base, lost), kept), truth)
    ensures SameView(x, truth) <==> Covers(base, lost, kept)
  {
    DroppedIff(base, lost, kept);
    SameViewAs(x, ApplyAll(ApplyAll(base, lost), kept), truth);
    ComparedAlike(x, ApplyAll(base, kept), ApplyAll(ApplyAll(base, lost), kept));
  }
}
