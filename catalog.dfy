/** The segment catalog: the eval, balanced and unbalanced partitions, each row
    tagged with its partition's directory name, concatenated in that order. */
module Catalog {

  datatype Partition = Eval | Balanced | Unbalanced

  /** The value of the `dir` column, which is also the output sub-directory. */
  function DirName(p: Partition): string {
    match p
    case Eval => "eval"
    case Balanced => "balanced"
    case Unbalanced => "unbalanced"
  }

  /** Position of a partition in the concatenation. */
  function Rank(p: Partition): nat {
    match p
    case Eval => 0
    case Balanced => 1
    case Unbalanced => 2
  }

  /** One parsed CSV row (times in whole seconds). */
  datatype Segment = Segment(
    ytid: string,
    startSeconds: int,
    endSeconds: int,
    labels: string,   // the raw `positive_labels` text, ids joined by commas
    views: int,
    likes: int)

  /** A catalog row: a segment and the partition it was loaded from. */
  datatype Row = Row(seg: Segment, dir: Partition)

  /** `frame["dir"] = name`: every row of one partition tagged with it. */
  function Tag(segs: seq<Segment>, p: Partition): seq<Row> {
    seq(|segs|, i requires 0 <= i < |segs| => Row(segs[i], p))
  }

  /** The `audioset` frame after the three exclusion tests. */
  function Assemble(
    eval: seq<Segment>, balanced: seq<Segment>, unbalanced: seq<Segment>,
    excludeEval: bool, excludeBalanced: bool, excludeUnbalanced: bool): seq<Row>
  {
    (if excludeEval then [] else Tag(eval, Eval))
    + (if excludeBalanced then [] else Tag(balanced, Balanced))
    + (if excludeUnbalanced then [] else Tag(unbalanced, Unbalanced))
  }

  /** Whether the frame has a `positive_labels` column: it does unless no partition was read. */
  predicate HasLabelColumn(excludeEval: bool, excludeBalanced: bool, excludeUnbalanced: bool) {
    !(excludeEval && excludeBalanced && excludeUnbalanced)
  }

  /** The partition a row of a source sequence is tagged with is its own. */
  predicate FromPartition(row: Row, segs: seq<Segment>, p: Partition, excluded: bool) {
    !excluded && row.dir == p && row.seg in segs
  }

  lemma TagMembership(segs: seq<Segment>, p: Partition, row: Row)
    ensures row in Tag(segs, p) <==> row.dir == p && row.seg in segs
  {
    if row.dir == p && row.seg in segs {
      var i :| 0 <= i < |segs| && segs[i] == row.seg;
      assert Tag(segs, p)[i] == row;
    }
  }

  /** A row is in the catalog exactly when it is a segment of a partition that was
      not excluded, tagged with that partition. */
  lemma AssembleMembership(
    eval: seq<Segment>, balanced: seq<Segment>, unbalanced: seq<Segment>,
    excludeEval: bool, excludeBalanced: bool, excludeUnbalanced: bool, row: Row)
    ensures row in Assemble(eval, balanced, unbalanced, excludeEval, excludeBalanced, excludeUnbalanced)
      <==> (|| FromPartition(row, eval, Eval, excludeEval)
           || FromPartition(row, balanced, Balanced, excludeBalanced)
           || FromPartition(row, unbalanced, Unbalanced, excludeUnbalanced))
  {
    TagMembership(eval, Eval, row);
    TagMembership(balanced, Balanced, row);
    TagMembership(unbalanced, Unbalanced, row);
  }

  /** The catalog holds every row of each included partition and no other, with
      eval rows first, then balanced, then unbalanced. */
  lemma AssembleLayout(
    eval: seq<Segment>, balanced: seq<Segment>, unbalanced: seq<Segment>,
    excludeEval: bool, excludeBalanced: bool, excludeUnbalanced: bool)
    ensures var r := Assemble(eval, balanced, unbalanced, excludeEval, excludeBalanced, excludeUnbalanced);
      && |r| == (if excludeEval then 0 else |eval|)
              + (if excludeBalanced then 0 else |balanced|)
              + (if excludeUnbalanced then 0 else |unbalanced|)
      && (forall i, j :: 0 <= i < j < |r| ==> Rank(r[i].dir) <= Rank(r[j].dir))
      && (excludeEval ==> forall i :: 0 <= i < |r| ==> r[i].dir != Eval)
      && (excludeBalanced ==> forall i :: 0 <= i < |r| ==> r[i].dir != Balanced)
      && (excludeUnbalanced ==> forall i :: 0 <= i < |r| ==> r[i].dir != Unbalanced)
  {
  }
}
