/**
 * The `merges` field of the tokenizer input (`deserialize_merges` and its
 * `visit_seq`): every element of the JSON array is either a string, kept as
 * it is, or an array, whose string members are joined with single spaces.
 * Any other element makes the whole field an error.
 */
module Merges {
  import opened Wrappers

  /** An already-parsed JSON value (the shape of `serde_json::Value`). */
  datatype Json =
    | Null
    | Bool(b: bool)
    | Number(literal: string)
    | Str(s: string)
    | Array(items: seq<Json>)
    | Object(entries: seq<(string, Json)>)

  const MERGE_ERROR := "merge must be a string or array of strings"
  /** What the visitor says it expects, reported when the field is not a sequence. */
  const EXPECTING := "a sequence of strings or arrays of strings"

  /** The string members of an array, in order; the other members are dropped. */
  function StringMembers(items: seq<Json>): (parts: seq<string>)
    ensures |parts| <= |items|
    ensures forall p :: p in parts <==> Str(p) in items
  {
    if items == [] then []
    else
      var rest := StringMembers(items[1..]);
      assert items == [items[0]] + items[1..];
      if items[0].Str? then [items[0].s] + rest else rest
  }

  /**
   * Filtering distributes over concatenation: the string members of `a + b`
   * are those of `a` followed by those of `b`, so order and repeats are kept.
   */
  lemma {:induction false} StringMembersAppend(a: seq<Json>, b: seq<Json>)
    ensures StringMembers(a + b) == StringMembers(a) + StringMembers(b)
    decreases |a|
  {
    if a == [] {
      assert a + b == b;
    } else {
      assert (a + b)[0] == a[0];
      assert (a + b)[1..] == a[1..] + b;
      StringMembersAppend(a[1..], b);
    }
  }

  /** One more element: a string is appended as it is, anything else adds nothing. */
  lemma StringMembersSnoc(a: seq<Json>, v: Json)
    ensures v.Str? ==> StringMembers(a + [v]) == StringMembers(a) + [v.s]
    ensures !v.Str? ==> StringMembers(a + [v]) == StringMembers(a)
  {
    StringMembersAppend(a, [v]);
    assert [v][1..] == [];
  }

  /** The sum of the lengths of the parts. */
  function TotalLength(parts: seq<string>): nat {
    if parts == [] then 0 else |parts[0]| + TotalLength(parts[1..])
  }

  /**
   * `parts.join(" ")`: starts with the first part, followed by a space when
   * more parts come, and is one character longer than the parts for each
   * gap between neighbours; `JoinWithSpaceSnoc` places every later part.
   */
  function JoinWithSpace(parts: seq<string>): (r: string)
    ensures parts == [] ==> r == ""
    ensures |parts| >= 1 ==> |r| == TotalLength(parts) + |parts| - 1
    ensures |parts| >= 1 ==> r[..|parts[0]|] == parts[0]
    ensures |parts| >= 2 ==> r[|parts[0]|] == ' '
  {
    if |parts| == 0 then ""
    else if |parts| == 1 then parts[0]
    else parts[0] + " " + JoinWithSpace(parts[1..])
  }

  /** `s.split(' ')`: the pieces between spaces, always at least one. */
  function SplitAtSpaces(s: string): (pieces: seq<string>)
    ensures |pieces| >= 1
  {
    if s == [] then [""]
    else if s[0] == ' ' then [""] + SplitAtSpaces(s[1..])
    else
      var rest := SplitAtSpaces(s[1..]);
      [[s[0]] + rest[0]] + rest[1..]
  }

  lemma {:induction false} SplitWithoutSpace(p: string)
    requires ' ' !in p
    ensures SplitAtSpaces(p) == [p]
  {
    if p != [] {
      SplitWithoutSpace(p[1..]);
      assert [p[0]] + p[1..] == p;
    }
  }

  lemma {:induction false} SplitAfterFirstPiece(p: string, rest: string)
    requires ' ' !in p
    ensures SplitAtSpaces(p + " " + rest) == [p] + SplitAtSpaces(rest)
  {
    if p == [] {
      assert p + " " + rest == [' '] + rest;
    } else {
      var joined := p + " " + rest;
      assert joined[0] == p[0] && joined[1..] == p[1..] + " " + rest;
      SplitAfterFirstPiece(p[1..], rest);
      assert [p[0]] + p[1..] == p;
    }
  }

  /**
   * One more part: the join so far, a single space, then the new part. With
   * the empty and one-part cases this fixes the join for every input.
   */
  lemma {:induction false} JoinWithSpaceSnoc(parts: seq<string>, p: string)
    requires parts != []
    ensures JoinWithSpace(parts + [p]) == JoinWithSpace(parts) + " " + p
    decreases |parts|
  {
    if |parts| == 1 {
      assert (parts + [p])[1..] == [p];
    } else {
      assert (parts + [p])[1..] == parts[1..] + [p];
      JoinWithSpaceSnoc(parts[1..], p);
    }
  }

  /**
   * Joining a non-empty list of space-free parts loses nothing: splitting
   * the joined merge at its spaces gives the parts back.
   */
  lemma {:induction false} SplitJoinWithSpace(parts: seq<string>)
    requires |parts| >= 1
    requires forall i :: 0 <= i < |parts| ==> ' ' !in parts[i]
    ensures SplitAtSpaces(JoinWithSpace(parts)) == parts
  {
    if |parts| == 1 {
      SplitWithoutSpace(parts[0]);
    } else {
      SplitAfterFirstPiece(parts[0], JoinWithSpace(parts[1..]));
      SplitJoinWithSpace(parts[1..]);
    }
  }

  predicate IsMergeElement(v: Json) {
    v.Str? || v.Array?
  }

  /** One element of the merges array. */
  function NormalizeMerge(v: Json): (r: Result<string, string>)
    ensures r.Ok? <==> IsMergeElement(v)
    ensures v.Str? ==> r == Ok(v.s)
    ensures r.Err? ==> r.error == MERGE_ERROR
  {
    match v
    case Str(s) => Ok(s)
    case Array(items) => Ok(JoinWithSpace(StringMembers(items)))
    case _ => Err(MERGE_ERROR)
  }

  /**
   * An array element's merge holds its string members in order: none gives
   * the empty merge, and space-free members come back, in order and with
   * their repeats, when the merge is split at its spaces.
   */
  lemma ArrayMergeSplits(items: seq<Json>)
    ensures NormalizeMerge(Array(items)).Ok?
    ensures StringMembers(items) == [] ==> NormalizeMerge(Array(items)).value == ""
    ensures StringMembers(items) != [] && (forall p :: p in StringMembers(items) ==> ' ' !in p) ==>
              SplitAtSpaces(NormalizeMerge(Array(items)).value) == StringMembers(items)
  {
    var parts := StringMembers(items);
    if parts != [] && (forall p :: p in parts ==> ' ' !in p) {
      assert forall i :: 0 <= i < |parts| ==> parts[i] in parts;
      SplitJoinWithSpace(parts);
    }
  }

  /**
   * What reading a merges array yields: an error exactly when some element is
   * neither a string nor an array, and otherwise one merge per element, in
   * the same order.
   */
  ghost predicate ReadsAsMerges(elements: seq<Json>, r: Result<seq<string>, string>) {
    && (r.Ok? <==> forall i :: 0 <= i < |elements| ==> IsMergeElement(elements[i]))
    && (r.Ok? ==> |r.value| == |elements|
                  && forall i :: 0 <= i < |elements| ==> NormalizeMerge(elements[i]) == Ok(r.value[i]))
    && (r.Err? ==> r.error == MERGE_ERROR)
  }

  /** `visit_seq`: reads the elements one by one, stopping at the first bad one. */
  method VisitSeq(elements: seq<Json>) returns (r: Result<seq<string>, string>)
    ensures ReadsAsMerges(elements, r)
  {
    var merges: seq<string> := [];
    var k := 0;
    while k < |elements|
      invariant 0 <= k <= |elements|
      invariant |merges| == k
      invariant forall i :: 0 <= i < k ==> NormalizeMerge(elements[i]) == Ok(merges[i])
    {
      var mergeStr := NormalizeMerge(elements[k]);
      if mergeStr.Err? {
        return Err(mergeStr.error);
      }
      merges := merges + [mergeStr.value];
      k := k + 1;
    }
    return Ok(merges);
  }

  /**
   * The whole field: absent means no merges; a JSON array is visited element
   * by element; any other value is not a sequence and is an error.
   */
  method DeserializeMerges(field: Option<Json>) returns (r: Result<seq<string>, string>)
    ensures field.None? ==> r == Ok([])
    ensures field.Some? && field.value.Array? ==> ReadsAsMerges(field.value.items, r)
    ensures field.Some? && !field.value.Array? ==> r == Err("invalid type: expected " + EXPECTING)
  {
    match field
    case None => r := Ok([]);
    case Some(Array(items)) => r := VisitSeq(items);
    case Some(_) => r := Err("invalid type: expected " + EXPECTING);
  }

  /**
   * A member with a space in it makes the merge ambiguous: `["a b", "c"]` and
   * `["a", "b c"]` give the same merge.
   */
  lemma SpaceInMemberIsLost()
    ensures NormalizeMerge(Array([Str("a b"), Str("c")])) == Ok("a b c")
    ensures NormalizeMerge(Array([Str("a"), Str("b c")])) == Ok("a b c")
  {
    assert [Str("a b")] + [Str("c")] == [Str("a b"), Str("c")];
    assert [Str("a")] + [Str("b c")] == [Str("a"), Str("b c")];
    assert "a b" + " " + "c" == "a b c" == "a" + " " + "b c";
    OneStringMerge([Str("a b")], Str("c"), "a b");
    OneStringMerge([Str("a")], Str("b c"), "a");
  }

  /** A two-member array whose members are both strings: their texts with one space between. */
  lemma OneStringMerge(first: seq<Json>, second: Json, s: string)
    requires first == [Str(s)] && second.Str?
    ensures NormalizeMerge(Array(first + [second])) == Ok(s + " " + second.s)
  {
    assert first[1..] == [];
    assert StringMembers(first) == [s];
    StringMembersSnoc(first, second);
    JoinWithSpaceSnoc([s], second.s);
    assert [s] + [second.s] == StringMembers(first + [second]);
  }

  /** An array element keeps its string members, in order, and drops the rest. */
  lemma PairWithStrayMember()
    ensures NormalizeMerge(Array([Str("\U{0120}"), Number("1"), Str("t")])) == Ok("\U{0120} t")
  {
    var items := [Str("\U{0120}"), Number("1"), Str("t")];
    assert items[1..][1..][1..] == [];
    assert StringMembers(items) == ["\U{0120}", "t"];
    assert ["\U{0120}", "t"][1..] == ["t"];
    assert JoinWithSpace(["\U{0120}", "t"]) == "\U{0120}" + " " + "t" == "\U{0120} t";
    assert NormalizeMerge(Array(items)) == Ok(JoinWithSpace(StringMembers(items)));
  }
}
