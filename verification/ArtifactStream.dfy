/** The byte stream that is hashed into the artifact digest: length-prefixed paths and contents. */
module ArtifactStream {
  import opened Options
  import Sorting

  type Byte = x: int | 0 <= x < 256

  const COLON: Byte := 58

  datatype Artifact = Artifact(path: seq<Byte>, content: seq<Byte>)

  // ---------- decimal lengths ----------

  function Digits(n: nat): (s: seq<Byte>)
    ensures s != []
  {
    if n < 10 then [48 + n] else Digits(n / 10) + [48 + n % 10]
  }

  predicate IsDigit(b: Byte) {
    48 <= b < 58
  }

  /** Reads a decimal number without leading zeros. */
  function ParseDigits(s: seq<Byte>): Option<nat> {
    if s == [] || !IsDigit(s[|s| - 1]) then None
    else if |s| == 1 then Some(s[0] - 48)
    else
      match ParseDigits(s[..|s| - 1])
      case None => None
      case Some(v) => if v == 0 then None else Some(v * 10 + (s[|s| - 1] - 48))
  }

  lemma {:induction false} ParseOfDigits(n: nat)
    ensures ParseDigits(Digits(n)) == Some(n)
    ensures forall b :: b in Digits(n) ==> IsDigit(b)
  {
    if n >= 10 {
      ParseOfDigits(n / 10);
      var s := Digits(n);
      assert s[..|s| - 1] == Digits(n / 10) && s[|s| - 1] == 48 + n % 10;
    }
  }

  lemma {:induction false} DigitsOfParse(s: seq<Byte>)
    ensures ParseDigits(s).Some? ==> Digits(ParseDigits(s).value) == s
  {
    if ParseDigits(s).Some? {
      var last := |s| - 1;
      if |s| == 1 {
        assert s == [s[0]];
      } else {
        DigitsOfParse(s[..last]);
        var v := ParseDigits(s[..last]).value;
        var n := v * 10 + (s[last] - 48);
        assert n >= 10 && n / 10 == v && n % 10 == s[last] - 48;
        assert s == s[..last] + [s[last]];
      }
    }
  }

  function Pow10(k: nat): nat {
    if k == 0 then 1 else 10 * Pow10(k - 1)
  }

  /** The number a run of ASCII digits stands for, the leading digit counting most. */
  function Value(s: seq<Byte>): int {
    if s == [] then 0 else (s[0] - 48) * Pow10(|s| - 1) + Value(s[1..])
  }

  lemma {:induction false} ValueSnoc(s: seq<Byte>, d: Byte)
    ensures Value(s + [d]) == 10 * Value(s) + (d - 48)
  {
    if s != [] {
      ValueSnoc(s[1..], d);
      assert (s + [d])[1..] == s[1..] + [d];
      var lead: int := s[0];
      Tenfold(lead - 48, Pow10(|s| - 1));
    } else {
      assert [d][1..] == [];
    }
  }

  lemma Tenfold(d: int, p: int)
    ensures d * (10 * p) == 10 * (d * p)
  {
  }

  /** Lengths are written in decimal, without leading zeros. */
  lemma {:induction false} DigitsAreDecimal(n: nat)
    ensures Value(Digits(n)) == n
    ensures forall b :: b in Digits(n) ==> 48 <= b <= 57
    ensures |Digits(n)| > 1 ==> Digits(n)[0] != 48
  {
    if n < 10 {
      assert [48 + n][1..] == [];
      assert Value([48 + n]) == n * Pow10(0);
    } else {
      DigitsAreDecimal(n / 10);
      ValueSnoc(Digits(n / 10), 48 + n % 10);
      if n / 10 < 10 { assert Digits(n / 10) == [48 + n / 10]; }
    }
  }

  // ---------- fields ----------

  /** Length, colon, bytes. */
  function Field(b: seq<Byte>): seq<Byte> {
    Digits(|b|) + [COLON] + b
  }

  /** Position of the first colon, or the length when there is none. */
  function FirstColon(s: seq<Byte>): (k: nat)
    ensures k <= |s|
    ensures k < |s| ==> s[k] == COLON
  {
    if s == [] || s[0] == COLON then 0 else 1 + FirstColon(s[1..])
  }

  lemma {:induction false} FirstColonAfter(digits: seq<Byte>, rest: seq<Byte>)
    requires forall b :: b in digits ==> IsDigit(b)
    ensures FirstColon(digits + [COLON] + rest) == |digits|
  {
    var s := digits + [COLON] + rest;
    if digits != [] {
      assert s[0] in digits;
      FirstColonAfter(digits[1..], rest);
      assert s[1..] == digits[1..] + [COLON] + rest;
    } else {
      assert s[0] == COLON;
    }
  }

  /** Splits a field off the front of a stream. */
  function DecodeField(s: seq<Byte>): (r: Option<(seq<Byte>, seq<Byte>)>)
    ensures r.Some? ==> |r.value.1| < |s|
  {
    var k := FirstColon(s);
    if k == |s| then None
    else
      match ParseDigits(s[..k])
      case None => None
      case Some(n) => if n > |s| - (k + 1) then None else Some((s[k + 1..k + 1 + n], s[k + 1 + n..]))
  }

  lemma DecodeOfField(b: seq<Byte>, rest: seq<Byte>)
    ensures DecodeField(Field(b) + rest) == Some((b, rest))
  {
    var s, d := Field(b) + rest, Digits(|b|);
    ParseOfDigits(|b|);
    assert s == d + [COLON] + (b + rest);
    FirstColonAfter(d, b + rest);
    assert s[..|d|] == d;
    assert s[|d| + 1..] == b + rest;
    assert s[|d| + 1..|d| + 1 + |b|] == b && s[|d| + 1 + |b|..] == rest;
  }

  lemma FieldOfDecode(s: seq<Byte>)
    ensures DecodeField(s).Some? ==> Field(DecodeField(s).value.0) + DecodeField(s).value.1 == s
  {
    var k := FirstColon(s);
    if DecodeField(s).Some? {
      DigitsOfParse(s[..k]);
      var b, rest := DecodeField(s).value.0, DecodeField(s).value.1;
      assert s == s[..k] + [COLON] + (b + rest);
    }
  }

  // ---------- streams ----------

  function Encode(artifacts: seq<Artifact>): seq<Byte> {
    if artifacts == [] then []
    else Field(artifacts[0].path) + (Field(artifacts[0].content) + Encode(artifacts[1..]))
  }

  /** A stream starts with its first artifact: length, colon and bytes of the path, then of the content. */
  lemma EncodeCons(a: Artifact, later: seq<Artifact>)
    ensures Encode([a] + later) ==
            Digits(|a.path|) + [58] + a.path + Digits(|a.content|) + [58] + a.content + Encode(later)
    ensures Encode([]) == []
  {
    var all := [a] + later;
    assert all[1..] == later;
    var d, e := Digits(|a.path|), Digits(|a.content|);
    assert Encode(all) == (d + [COLON] + a.path) + ((e + [COLON] + a.content) + Encode(later));
    Flatten([], d, a.path, e, a.content, Encode(later));
  }

  function Decode(s: seq<Byte>): Option<seq<Artifact>>
    decreases |s|
  {
    if s == [] then Some([])
    else
      match DecodeField(s)
      case None => None
      case Some((path, afterPath)) =>
        match DecodeField(afterPath)
        case None => None
        case Some((content, rest)) =>
          match Decode(rest)
          case None => None
          case Some(later) => Some([Artifact(path, content)] + later)
  }

  lemma {:induction false} DecodeOfEncode(artifacts: seq<Artifact>)
    ensures Decode(Encode(artifacts)) == Some(artifacts)
  {
    if artifacts != [] {
      var a, rest := artifacts[0], Encode(artifacts[1..]);
      DecodeOfField(a.path, Field(a.content) + rest);
      DecodeOfField(a.content, rest);
      DecodeOfEncode(artifacts[1..]);
      assert artifacts == [a] + artifacts[1..];
    }
  }

  lemma {:induction false} EncodeOfDecode(s: seq<Byte>)
    ensures Decode(s).Some? ==> Encode(Decode(s).value) == s
    decreases |s|
  {
    if s != [] && Decode(s).Some? {
      FieldOfDecode(s);
      var (path, afterPath) := DecodeField(s).value;
      FieldOfDecode(afterPath);
      var (content, rest) := DecodeField(afterPath).value;
      EncodeOfDecode(rest);
      var later := Decode(rest).value;
      assert ([Artifact(path, content)] + later)[1..] == later;
    }
  }

  /** The decoder accepts exactly the streams that are encodings, and inverts them. */
  lemma DecodesIffEncoded(s: seq<Byte>, artifacts: seq<Artifact>)
    ensures Decode(s) == Some(artifacts) <==> s == Encode(artifacts)
  {
    DecodeOfEncode(artifacts);
    EncodeOfDecode(s);
  }

  /** Equal streams come from equal artifact lists. */
  lemma EncodeInjective(a: seq<Artifact>, b: seq<Artifact>)
    ensures Encode(a) == Encode(b) <==> a == b
  {
    DecodeOfEncode(a);
    DecodeOfEncode(b);
  }

  // ---------- the digest input ----------

  /** A path as the script compares it: UTF-16 code units. */
  type Unit = x: int | 0 <= x < 0x1_0000
  type Path = seq<Unit>

  datatype File = File(path: Path, content: seq<Byte>)

  /** The default order of `Array.prototype.sort` on strings. */
  predicate PathLeq(a: Path, b: Path) {
    a == [] || (b != [] && (a[0] < b[0] || (a[0] == b[0] && PathLeq(a[1..], b[1..]))))
  }

  /** One path is the beginning of the other, or has the smaller unit where they first differ. */
  lemma {:induction false} PathLeqIs(a: Path, b: Path)
    ensures PathLeq(a, b) <==>
      a <= b || exists i :: SmallerAt(a, b, i)
  {
    if a != [] && b != [] {
      PathLeqIs(a[1..], b[1..]);
      if a[0] == b[0] {
        assert a <= b <==> a[1..] <= b[1..] by { PrefixTail(a, b); }
        DiffersLater(a, b);
      } else if a[0] < b[0] {
        assert a[..0] == b[..0] && SmallerAt(a, b, 0);
      }
    }
  }

  lemma PrefixTail(a: Path, b: Path)
    requires a != [] && b != [] && a[0] == b[0]
    ensures a <= b <==> a[1..] <= b[1..]
  {
    assert a == [a[0]] + a[1..] && b == [b[0]] + b[1..];
  }

  /** Both paths start alike and have their first difference, a smaller unit in the first, at i. */
  predicate SmallerAt(a: Path, b: Path, i: int) {
    0 <= i < |a| && i < |b| && a[..i] == b[..i] && a[i] < b[i]
  }

  lemma DiffersLater(a: Path, b: Path)
    requires a != [] && b != [] && a[0] == b[0]
    ensures (exists i :: SmallerAt(a, b, i)) <==> (exists i :: SmallerAt(a[1..], b[1..], i))
  {
    forall i ensures SmallerAt(a, b, i + 1) <==> SmallerAt(a[1..], b[1..], i) {
      if 0 <= i < |a| - 1 && i < |b| - 1 {
        assert a[..i + 1] == [a[0]] + a[1..][..i] && b[..i + 1] == [b[0]] + b[1..][..i];
      }
    }
    if i :| SmallerAt(a, b, i) { assert SmallerAt(a[1..], b[1..], i - 1); }
    if i :| SmallerAt(a[1..], b[1..], i) { assert SmallerAt(a, b, i + 1); }
  }

  predicate ByPath(a: File, b: File) {
    PathLeq(a.path, b.path)
  }

  lemma {:induction false} PathTotal(a: Path, b: Path)
    ensures PathLeq(a, b) || PathLeq(b, a)
    ensures PathLeq(a, b) && PathLeq(b, a) ==> a == b
  {
    if a != [] && b != [] {
      PathTotal(a[1..], b[1..]);
      assert a == [a[0]] + a[1..] && b == [b[0]] + b[1..];
    }
  }

  lemma {:induction false} PathTransitive(a: Path, b: Path, c: Path)
    ensures PathLeq(a, b) && PathLeq(b, c) ==> PathLeq(a, c)
  {
    if a != [] && b != [] && c != [] {
      PathTransitive(a[1..], b[1..], c[1..]);
    }
  }

  /** A directory listing names each file once. */
  ghost predicate DistinctPaths(files: seq<File>) {
    forall f, g :: f in files && g in files && f.path == g.path ==> f == g
  }

  /** The path order is total, and strict on a listing. */
  lemma ByPathOrder(files: seq<File>)
    ensures Sorting.TotalPreorder(ByPath)
    ensures DistinctPaths(files) ==> Sorting.Antisymmetric(ByPath, files)
  {
    forall a, b
      ensures ByPath(a, b) || ByPath(b, a)
      ensures ByPath(a, b) && ByPath(b, a) ==> a.path == b.path
    {
      PathTotal(a.path, b.path);
    }
    forall a, b, c ensures ByPath(a, b) && ByPath(b, c) ==> ByPath(a, c) {
      PathTransitive(a.path, b.path, c.path);
    }
  }

  /** The files as the hash sees them, their paths in UTF-8. */
  function Stored(utf8: Path -> seq<Byte>, files: seq<File>): (artifacts: seq<Artifact>)
    ensures |artifacts| == |files|
  {
    seq(|files|, i requires 0 <= i < |files| => Artifact(utf8(files[i].path), files[i].content))
  }

  /** UTF-8 tells the paths of these files apart, as it does well-formed ones. */
  ghost predicate Faithful(utf8: Path -> seq<Byte>, files: seq<File>) {
    forall f, g :: f in files && g in files && utf8(f.path) == utf8(g.path) ==> f.path == g.path
  }

  /** What a build record keeps of the artifacts; the hash is taken to be injective on its input. */
  datatype Digest = Digest(fileCount: nat, hashed: seq<Byte>)

  function DigestOf(utf8: Path -> seq<Byte>, files: seq<File>): Digest {
    Digest(|files|, Encode(Stored(utf8, Sorting.Sort(ByPath, files))))
  }

  /** `clientArtifactDigest` over the files found, in any order; no files is an error. */
  method ArtifactDigest(utf8: Path -> seq<Byte>, files: seq<File>) returns (digest: Option<Digest>)
    ensures digest == if files == [] then None else Some(DigestOf(utf8, files))
  {
    if files == [] { return None; }
    var sorted := Sorting.Sort(ByPath, files);
    var stream := FeedFiles(utf8, sorted);
    digest := Some(Digest(|files|, stream));
  }

  /** The loop over the sorted paths. */
  method FeedFiles(utf8: Path -> seq<Byte>, sorted: seq<File>) returns (stream: seq<Byte>)
    ensures stream == Encode(Stored(utf8, sorted))
  {
    stream := [];
    ghost var rest := Stored(utf8, sorted);
    for i := 0 to |sorted|
      invariant rest == Stored(utf8, sorted)[i..] && stream + Encode(rest) == Encode(Stored(utf8, sorted))
    {
      var path, content := utf8(sorted[i].path), sorted[i].content;
      assert rest[0] == Artifact(path, content);
      AppendArtifact(stream, rest);
      stream := stream + Digits(|path|) + [COLON];
      stream := stream + path;
      stream := stream + Digits(|content|) + [COLON];
      stream := stream + content;
      rest := rest[1..];
    }
    assert rest == [] && stream + Encode([]) == stream;
  }

  lemma AppendArtifact(stream: seq<Byte>, rest: seq<Artifact>)
    requires rest != []
    ensures var a := rest[0];
      stream + Encode(rest) ==
      stream + Digits(|a.path|) + [COLON] + a.path + Digits(|a.content|) + [COLON] + a.content + Encode(rest[1..])
  {
    var a := rest[0];
    var d, e, later := Digits(|a.path|), Digits(|a.content|), Encode(rest[1..]);
    assert Encode(rest) == (d + [COLON] + a.path) + ((e + [COLON] + a.content) + later);
    Flatten(stream, d, a.path, e, a.content, later);
  }

  lemma Flatten(stream: seq<Byte>, d: seq<Byte>, path: seq<Byte>, e: seq<Byte>, content: seq<Byte>, later: seq<Byte>)
    ensures stream + ((d + [COLON] + path) + ((e + [COLON] + content) + later)) ==
            stream + d + [COLON] + path + e + [COLON] + content + later
  {
  }

  lemma StoredApart(utf8: Path -> seq<Byte>, a: seq<File>, b: seq<File>)
    requires Faithful(utf8, a + b)
    ensures Stored(utf8, a) == Stored(utf8, b) <==> a == b
  {
    if Stored(utf8, a) == Stored(utf8, b) {
      assert |a| == |Stored(utf8, a)| == |Stored(utf8, b)| == |b|;
      forall i | 0 <= i < |a| ensures a[i] == b[i] {
        assert Stored(utf8, a)[i] == Stored(utf8, b)[i];
        assert a[i] in a + b && b[i] in a + b;
      }
    }
  }

  /** The hash input lists the files by ascending path, none left out or added. */
  lemma DigestInPathOrder(utf8: Path -> seq<Byte>, files: seq<File>) returns (sorted: seq<File>)
    ensures DigestOf(utf8, files).hashed == Encode(Stored(utf8, sorted)) && DigestOf(utf8, files).fileCount == |files|
    ensures multiset(sorted) == multiset(files)
    ensures forall i, j :: 0 <= i < j < |sorted| ==>
      sorted[i].path <= sorted[j].path || exists k :: SmallerAt(sorted[i].path, sorted[j].path, k)
  {
    sorted := Sorting.Sort(ByPath, files);
    ByPathOrder(files);
    Sorting.SortSorted(ByPath, files);
    forall i, j | 0 <= i < j < |sorted|
      ensures sorted[i].path <= sorted[j].path || exists k :: SmallerAt(sorted[i].path, sorted[j].path, k)
    {
      assert ByPath(sorted[i], sorted[j]);
      PathLeqIs(sorted[i].path, sorted[j].path);
    }
  }

  /** Two builds have the same digest exactly when they produced the same artifacts. */
  lemma SameDigestIffSameArtifacts(utf8: Path -> seq<Byte>, a: seq<File>, b: seq<File>)
    requires DistinctPaths(a) && DistinctPaths(b) && Faithful(utf8, a + b)
    ensures DigestOf(utf8, a) == DigestOf(utf8, b) <==> multiset(a) == multiset(b)
  {
    var x, y := Sorting.Sort(ByPath, a), Sorting.Sort(ByPath, b);
    forall f ensures (f in x <==> f in a) && (f in y <==> f in b) {
      assert (f in x <==> f in multiset(x)) && (f in y <==> f in multiset(y));
    }
    assert Faithful(utf8, x + y);
    EncodeInjective(Stored(utf8, x), Stored(utf8, y));
    StoredApart(utf8, x, y);
    ByPathOrder(a);
    Sorting.SortsAgree(ByPath, a, b);
    assert |multiset(a)| == |a| && |multiset(b)| == |b|;
  }
}
