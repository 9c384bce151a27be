/**
 The comma-separated modality lists of the model catalogue.
 */
module ModelCsv {
  import opened Options

  function Join(parts: seq<string>): string {
    if parts == [] then "" else if |parts| == 1 then parts[0] else parts[0] + "," + Join(parts[1..])
  }

  function Split(s: string): (parts: seq<string>)
    ensures parts != []
  {
    if s == "" then [""]
    else
      var rest := Split(s[1..]);
      if s[0] == ',' then [""] + rest else [[s[0]] + rest[0]] + rest[1..]
  }

  function NonEmpty(parts: seq<string>): seq<string> {
    if parts == [] then [] else (if parts[0] == "" then [] else [parts[0]]) + NonEmpty(parts[1..])
  }

  /** The entries of a stored list; absent and empty are the same. */
  function Parts(csv: Option<string>): seq<string> {
    if csv.None? then [] else NonEmpty(Split(csv.value))
  }

  predicate IsPart(p: string) {
    p != "" && forall k | 0 <= k < |p| :: p[k] != ','
  }

  predicate AreParts(parts: seq<string>) {
    forall k | 0 <= k < |parts| :: IsPart(parts[k])
  }

  function Encode(parts: seq<string>): Option<string> {
    if parts == [] then None else Some(Join(parts))
  }

  /** A list is clean when writing its entries back gives it again. */
  predicate Clean(csv: Option<string>) {
    Encode(Parts(csv)) == csv
  }

  lemma {:induction false} SplitAfterPart(p: string, s: string)
    requires forall k | 0 <= k < |p| :: p[k] != ','
    ensures Split(p + "," + s) == [p] + Split(s)
    ensures Split(p) == [p]
  {
    if p == "" {
      assert p + "," + s == "," + s;
      assert ("," + s)[1..] == s;
    } else {
      SplitAfterPart(p[1..], s);
      assert (p + "," + s)[1..] == p[1..] + "," + s;
      assert [p[0]] + p[1..] == p;
    }
  }

  /** What is joined splits into the same entries. */
  lemma {:induction false} SplitOfJoin(parts: seq<string>)
    requires parts != [] && AreParts(parts)
    ensures Split(Join(parts)) == parts
  {
    assert IsPart(parts[0]);
    if |parts| == 1 {
      SplitAfterPart(parts[0], "");
      assert parts == [parts[0]];
    } else {
      SplitOfJoin(parts[1..]);
      SplitAfterPart(parts[0], Join(parts[1..]));
      assert Split(Join(parts)) == [parts[0]] + parts[1..];
    }
  }

  lemma {:induction false} NonEmptyOfParts(parts: seq<string>)
    requires AreParts(parts)
    ensures NonEmpty(parts) == parts
  {
    if parts != [] {
      assert IsPart(parts[0]);
      NonEmptyOfParts(parts[1..]);
    }
  }

  /** Reading back what was written: the round trip behind every merge. */
  lemma PartsOfEncode(parts: seq<string>)
    requires AreParts(parts)
    ensures Parts(Encode(parts)) == parts && Clean(Encode(parts))
  {
    if parts != [] {
      SplitOfJoin(parts);
      NonEmptyOfParts(parts);
    }
  }

  lemma {:induction false} SplitHasNoCommas(s: string)
    ensures forall k, j | 0 <= k < |Split(s)| && 0 <= j < |Split(s)[k]| :: Split(s)[k][j] != ','
  {
    if s != "" {
      SplitHasNoCommas(s[1..]);
    }
  }

  lemma {:induction false} NonEmptyAreParts(parts: seq<string>)
    requires forall k, j | 0 <= k < |parts| && 0 <= j < |parts[k]| :: parts[k][j] != ','
    ensures AreParts(NonEmpty(parts))
  {
    if parts != [] {
      NonEmptyAreParts(parts[1..]);
    }
  }

  /** Whatever is stored reads as proper entries. */
  lemma PartsAreParts(csv: Option<string>)
    ensures AreParts(Parts(csv))
  {
    if csv.Some? {
      SplitHasNoCommas(csv.value);
      NonEmptyAreParts(Split(csv.value));
    }
  }
}
