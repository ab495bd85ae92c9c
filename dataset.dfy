/**
 * The dataset preparation script (tests/transform_2.py): the class list,
 * the search for an image's label file, the image listing, the train/val
 * split and the dataset YAML. Files are named by their names inside the
 * source folder; the filesystem is the set of names that exist there, and
 * a folder listing is a sequence of entries.
 */
module Dataset {
  import opened Wrappers
  import opened Text
  import opened Sequences
  import opened Sorting

  const ImgExts: set<string> := {".jpg", ".jpeg", ".png", ".bmp", ".webp"}

  datatype DatasetError = ClassesNotFound | NoClassNames | SourceFolderNotFound | NoImages

  // ---------------------------------------------------------------------
  // read_classes
  // ---------------------------------------------------------------------

  /** The characters str.splitlines() breaks at. */
  predicate IsLineBreak(c: char) {
    c == '\n' || c == '\r' || c == '\U{0b}' || c == '\U{0c}' || ('\U{1c}' <= c <= '\U{1e}')
    || c == '\U{85}' || c == '\U{2028}' || c == '\U{2029}'
  }

  predicate NoLineBreak(s: string) {
    forall j :: 0 <= j < |s| ==> !IsLineBreak(s[j])
  }

  /**
   * The pieces between line-break characters. This differs from
   * str.splitlines() only by empty pieces (one inside each "\r\n", one
   * after a final break), which read_classes drops anyway.
   */
  function Pieces(s: string): (r: seq<string>)
    ensures |r| >= 1
    ensures forall k :: 0 <= k < |r| ==> NoLineBreak(r[k])
    decreases |s|
  {
    if s == [] then [""]
    else if IsLineBreak(s[0]) then [""] + Pieces(s[1..])
    else
      var rest := Pieces(s[1..]);
      [[s[0]] + rest[0]] + rest[1..]
  }

  function StripAll(lines: seq<string>): (r: seq<string>)
    ensures |r| == |lines| && forall k :: 0 <= k < |r| ==> r[k] == Strip(lines[k])
  {
    Map(StripLine(), lines)
  }

  function StripLine(): string -> string {
    line => Strip(line)
  }

  predicate NonEmpty(s: string) {
    s != ""
  }

  /** The stripped, non-empty lines of the class file, in file order. */
  function ClassNames(text: string): seq<string> {
    Filter(StripAll(Pieces(text)), NonEmpty)
  }

  /** read_classes: a missing file, or one without a class name, is an error. */
  method ReadClasses(file: Option<string>) returns (r: Result<seq<string>, DatasetError>)
    ensures file.None? ==> r == Err(ClassesNotFound)
    ensures file.Some? && ClassNames(file.value) == [] ==> r == Err(NoClassNames)
    ensures file.Some? && ClassNames(file.value) != [] ==> r == Ok(ClassNames(file.value))
  {
    if file.None? {
      return Err(ClassesNotFound);
    }
    var lines := Pieces(file.value);
    var names: seq<string> := [];
    for i := 0 to |lines|
      invariant names == Filter(StripAll(lines[..i]), NonEmpty)
    {
      var line := Strip(lines[i]);
      ClassNamesStep(lines, i);
      if line != "" {
        names := names + [line];
      }
    }
    assert lines[..|lines|] == lines;
    if names == [] {
      return Err(NoClassNames);
    }
    return Ok(names);
  }

  /** One more line read: its stripped text is kept when it is not empty. */
  lemma ClassNamesStep(lines: seq<string>, i: nat)
    requires i < |lines|
    ensures Filter(StripAll(lines[..i + 1]), NonEmpty)
            == Filter(StripAll(lines[..i]), NonEmpty) + (if Strip(lines[i]) != "" then [Strip(lines[i])] else [])
  {
    StripAllSnoc(lines, i);
    FilterSnoc(StripAll(lines[..i]), NonEmpty, Strip(lines[i]));
  }

  lemma StripAllSnoc(lines: seq<string>, i: nat)
    requires i < |lines|
    ensures StripAll(lines[..i + 1]) == StripAll(lines[..i]) + [Strip(lines[i])]
  {
    MapSnoc(StripLine(), lines, i);
  }

  /** A class name is non-empty, has no surrounding whitespace, and no line break. */
  lemma ClassNamesShape(text: string)
    ensures forall n :: n in ClassNames(text) ==>
              n != [] && !IsSpace(n[0]) && !IsSpace(n[|n| - 1]) && NoLineBreak(n)
  {
    forall n | n in ClassNames(text)
      ensures n != [] && !IsSpace(n[0]) && !IsSpace(n[|n| - 1]) && NoLineBreak(n)
    {
      ClassNameShape(Pieces(text), n);
    }
  }

  lemma ClassNameShape(lines: seq<string>, n: string)
    requires forall k :: 0 <= k < |lines| ==> NoLineBreak(lines[k])
    requires n in Filter(StripAll(lines), NonEmpty)
    ensures n != [] && !IsSpace(n[0]) && !IsSpace(n[|n| - 1]) && NoLineBreak(n)
  {
    var stripped := StripAll(lines);
    FilterMembership(stripped, NonEmpty, n);
    var k :| 0 <= k < |stripped| && stripped[k] == n;
    assert n == Strip(lines[k]);
    StripKeepsNoLineBreak(lines[k]);
  }

  lemma StripKeepsNoLineBreak(s: string)
    requires NoLineBreak(s)
    ensures NoLineBreak(Strip(s))
  {
    var i := StripIsSubstring(s);
    assert forall j :: 0 <= j < |Strip(s)| ==> Strip(s)[j] == s[i + j];
  }

  lemma {:induction false} PiecesAround(a: string, b: string)
    requires NoLineBreak(a)
    ensures Pieces(a + "\n" + b) == [a] + Pieces(b)
    decreases |a|
  {
    if a == [] {
      assert a + "\n" + b == "\n" + b;
      assert ("\n" + b)[1..] == b;
    } else {
      PiecesAround(a[1..], b);
      assert (a + "\n" + b)[1..] == a[1..] + "\n" + b;
      assert [a[0]] + a[1..] == a;
    }
  }

  lemma {:induction false} PiecesOfLine(s: string)
    requires NoLineBreak(s)
    ensures Pieces(s) == [s]
    decreases |s|
  {
    if s != [] {
      PiecesOfLine(s[1..]);
      assert [s[0]] + s[1..] == s;
    }
  }

  lemma {:induction false} PiecesJoin(parts: seq<string>)
    requires |parts| >= 1
    requires forall k :: 0 <= k < |parts| ==> NoLineBreak(parts[k])
    ensures Pieces(Join(parts, "\n")) == parts
    decreases |parts|
  {
    if |parts| == 1 {
      PiecesOfLine(parts[0]);
    } else {
      PiecesJoin(parts[1..]);
      PiecesAround(parts[0], Join(parts[1..], "\n"));
      assert [parts[0]] + parts[1..] == parts;
    }
  }

  lemma StripOfTrimmed(s: string)
    requires s != [] && !IsSpace(s[0]) && !IsSpace(s[|s| - 1])
    ensures Strip(s) == s
  {
    assert LStrip(s) == s;
  }

  /** A class list written one name per line reads back unchanged. */
  lemma ClassNamesRoundTrip(names: seq<string>)
    requires names != []
    requires forall k :: 0 <= k < |names| ==>
               names[k] != [] && !IsSpace(names[k][0]) && !IsSpace(names[k][|names[k]| - 1]) && NoLineBreak(names[k])
    ensures ClassNames(Join(names, "\n")) == names
  {
    PiecesJoin(names);
    var stripped := StripAll(names);
    forall k | 0 <= k < |names|
      ensures stripped[k] == names[k]
    {
      StripOfTrimmed(names[k]);
    }
    assert stripped == names;
    FilterAll(names, NonEmpty);
  }

  // ---------------------------------------------------------------------
  // Path names
  // ---------------------------------------------------------------------

  /** str.rfind(c), -1 when absent. */
  function RFind(s: string, c: char): (i: int)
    ensures -1 <= i < |s|
    ensures i >= 0 ==> s[i] == c && forall k :: i < k < |s| ==> s[k] != c
    ensures i == -1 ==> forall k :: 0 <= k < |s| ==> s[k] != c
    decreases |s|
  {
    if s == [] then -1
    else if s[|s| - 1] == c then |s| - 1
    else RFind(s[..|s| - 1], c)
  }

  /** PurePath.suffix: from the last dot, unless that dot starts or ends the name. */
  function Suffix(name: string): string {
    var i := RFind(name, '.');
    if 0 < i < |name| - 1 then name[i..] else ""
  }

  /** PurePath.stem: the name without its suffix. */
  function Stem(name: string): string {
    var i := RFind(name, '.');
    if 0 < i < |name| - 1 then name[..i] else name
  }

  lemma StemSuffix(name: string)
    ensures Stem(name) + Suffix(name) == name
  {
  }

  /** with_suffix(suffix) on a non-empty name. */
  function WithSuffix(name: string, suffix: string): string {
    Stem(name) + suffix
  }

  lemma StemOfDotless(name: string)
    requires '.' !in name
    ensures Stem(name) == name && Suffix(name) == ""
  {
  }

  // ---------------------------------------------------------------------
  // find_label_for_image
  // ---------------------------------------------------------------------

  /** The start of the run of digits that ends the string. */
  function DigitRunStart(s: string): (k: nat)
    ensures k <= |s| && forall j :: k <= j < |s| ==> IsDigit(s[j])
    ensures k > 0 ==> !IsDigit(s[k - 1])
    decreases |s|
  {
    if s != [] && IsDigit(s[|s| - 1]) then DigitRunStart(s[..|s| - 1]) else |s|
  }

  /** The text before `$`: the stem without one final newline. */
  function EndOfLine(stem: string): (b: string)
    ensures b == stem || b + "\n" == stem
  {
    if stem != [] && stem[|stem| - 1] == '\n' then stem[..|stem| - 1] else stem
  }

  /**
   * `re.search(r"(\d+)$", stem)`: the digits that end the stem, where `$`
   * also matches just before a final newline.
   */
  function TrailingNumber(stem: string): (num: Option<string>)
    ensures var b := EndOfLine(stem); num.Some? <==> b != [] && IsDigit(b[|b| - 1])
    ensures num.Some? ==> num.value != [] && AllDigits(num.value)
    ensures var b := EndOfLine(stem);
            num.Some? ==> |num.value| <= |b| && b[|b| - |num.value|..] == num.value
                          && (|num.value| < |b| ==> !IsDigit(b[|b| - |num.value| - 1]))
  {
    var body := EndOfLine(stem);
    var k := DigitRunStart(body);
    if k < |body| then Some(body[k..]) else None
  }

  /** The label names tried for an image, in the order they are tried. */
  function LabelCandidates(name: string): seq<string> {
    var stem := Stem(name);
    [WithSuffix(name, ".txt")]
    + (if IsPrefix("frame_", stem) then [WithSuffix("label_" + stem[6..], ".txt")] else [])
    + (match TrailingNumber(stem)
       case None => []
       case Some(num) =>
         [WithSuffix("label_" + num, ".txt")]
         + seq(4, w requires 0 <= w < 4 => WithSuffix("label_" + ZeroPad(NatToString(DigitsValue(num)), w + 5), ".txt")))
  }

  predicate Exists(existing: set<string>, name: string) {
    name in existing
  }

  /** The first of `cands` that exists. */
  function FirstExisting(cands: seq<string>, existing: set<string>): (r: Option<string>)
    ensures r.Some? ==> r.value in existing
    ensures r.Some? ==> exists i :: 0 <= i < |cands| && cands[i] == r.value
                                     && forall k :: 0 <= k < i ==> cands[k] !in existing
    ensures r.None? <==> forall k :: 0 <= k < |cands| ==> cands[k] !in existing
  {
    match FirstIndex(cands, c => Exists(existing, c))
    case Some(i) => Some(cands[i])
    case None => None
  }

  /** find_label_for_image: the first candidate that exists. */
  function FindLabel(name: string, existing: set<string>): (r: Option<string>)
    ensures r.Some? ==> r.value in existing
    ensures r.Some? ==> exists i :: 0 <= i < |LabelCandidates(name)| && LabelCandidates(name)[i] == r.value
                                     && forall k :: 0 <= k < i ==> LabelCandidates(name)[k] !in existing
    ensures r.None? <==> forall k :: 0 <= k < |LabelCandidates(name)| ==> LabelCandidates(name)[k] !in existing
  {
    FirstExisting(LabelCandidates(name), existing)
  }

  /** A candidate that exists after one that does not is the one chosen. */
  lemma SecondExisting(cands: seq<string>, existing: set<string>)
    requires |cands| >= 2 && cands[0] !in existing && cands[1] in existing
    ensures FirstExisting(cands, existing) == Some(cands[1])
  {
    var r := FirstExisting(cands, existing);
    var i :| 0 <= i < |cands| && cands[i] == r.value && forall k :: 0 <= k < i ==> cands[k] !in existing;
    assert i == 1;
  }

  /** The first two candidates of a "frame_" image: its own stem, then the "label_" rename. */
  lemma FrameCandidates(name: string)
    requires IsPrefix("frame_", Stem(name))
    ensures |LabelCandidates(name)| >= 2
    ensures LabelCandidates(name)[0] == Stem(name) + ".txt"
    ensures LabelCandidates(name)[1] == WithSuffix("label_" + Stem(name)[6..], ".txt")
  {
  }

  /** A label with the image's own stem is always preferred. */
  lemma SameStemFirst(name: string, existing: set<string>)
    requires Stem(name) + ".txt" in existing
    ensures FindLabel(name, existing) == Some(Stem(name) + ".txt")
  {
  }

  /** For "frame_N" without a same-stem label, "label_N.txt" is tried next. */
  lemma FrameRenamedSecond(name: string, digits: string, existing: set<string>)
    requires Stem(name) == "frame_" + digits && AllDigits(digits)
    requires Stem(name) + ".txt" !in existing
    requires "label_" + digits + ".txt" in existing
    ensures FindLabel(name, existing) == Some("label_" + digits + ".txt")
  {
    var stem := Stem(name);
    assert IsPrefix("frame_", stem);
    assert stem[6..] == digits;
    var renamed := "label_" + digits;
    assert '.' !in renamed by {
      assert forall j :: 6 <= j < |renamed| ==> renamed[j] == digits[j - 6];
    }
    StemOfDotless(renamed);
    FrameCandidates(name);
    SecondExisting(LabelCandidates(name), existing);
  }

  lemma {:induction false} DigitsValueOfZero(z: string)
    requires forall j :: 0 <= j < |z| ==> z[j] == '0'
    ensures AllDigits(z) && DigitsValue(z) == 0
    decreases |z|
  {
    if z != [] {
      DigitsValueOfZero(z[..|z| - 1]);
    }
  }

  lemma {:induction false} DigitsValueLeadingZeros(z: string, s: string)
    requires forall j :: 0 <= j < |z| ==> z[j] == '0'
    requires AllDigits(s)
    ensures AllDigits(z + s) && DigitsValue(z + s) == DigitsValue(s)
    decreases |s|
  {
    if s == [] {
      assert z + s == z;
      DigitsValueOfZero(z);
    } else {
      DigitsValueLeadingZeros(z, s[..|s| - 1]);
      assert (z + s)[..|z + s| - 1] == z + s[..|s| - 1];
    }
  }

  /** `f"{n:0{w}d}"` still denotes n: zero padding does not change the number. */
  lemma ZeroPadKeepsValue(n: nat, w: nat)
    ensures AllDigits(ZeroPad(NatToString(n), w))
    ensures DigitsValue(ZeroPad(NatToString(n), w)) == n
  {
    var s := NatToString(n);
    var r := ZeroPad(s, w);
    var z := r[..|r| - |s|];
    assert r == z + s;
    DigitsValueLeadingZeros(z, s);
    NatToStringRoundTrip(n);
  }

  // ---------------------------------------------------------------------
  // collect_images_from_folder
  // ---------------------------------------------------------------------

  /** One entry of a folder listing. */
  datatype Entry = Entry(name: string, isFile: bool)

  /** Lexicographic order on code points, as str comparison orders names. */
  predicate NameLe(a: string, b: string)
    decreases |a|
  {
    a == [] || (b != [] && (a[0] < b[0] || (a[0] == b[0] && NameLe(a[1..], b[1..]))))
  }

  lemma {:induction false} NameLeTotal(a: string, b: string)
    ensures NameLe(a, b) || NameLe(b, a)
    decreases |a|
  {
    if a != [] && b != [] && a[0] == b[0] {
      NameLeTotal(a[1..], b[1..]);
    }
  }

  lemma {:induction false} NameLeTransitive(a: string, b: string, c: string)
    requires NameLe(a, b) && NameLe(b, c)
    ensures NameLe(a, c)
    decreases |a|
  {
    if a != [] && b != [] && c != [] && a[0] == b[0] && b[0] == c[0] {
      NameLeTransitive(a[1..], b[1..], c[1..]);
    }
  }

  predicate EntryLe(a: Entry, b: Entry) {
    NameLe(a.name, b.name)
  }

  /** `p.is_file() and p.suffix.lower() in IMG_EXTS`. */
  predicate IsImage(e: Entry) {
    e.isFile && Lower(Suffix(e.name)) in ImgExts
  }

  /** collect_images_from_folder: a missing folder has no images. */
  function CollectImages(folder: Option<seq<Entry>>): seq<Entry> {
    match folder
    case None => []
    case Some(entries) => Filter(SortBy(entries, EntryLe), IsImage)
  }

  lemma EntryLeOrder()
    ensures Total(EntryLe) && Transitive(EntryLe)
  {
    forall a: Entry, b: Entry
      ensures EntryLe(a, b) || EntryLe(b, a)
    {
      NameLeTotal(a.name, b.name);
    }
    forall a: Entry, b: Entry, c: Entry | EntryLe(a, b) && EntryLe(b, c)
      ensures EntryLe(a, c)
    {
      NameLeTransitive(a.name, b.name, c.name);
    }
  }

  lemma {:induction false} FilterKeepsPairwise<T>(s: seq<T>, p: T -> bool, le: (T, T) -> bool)
    requires SortedPairwise(s, le)
    ensures SortedPairwise(Filter(s, p), le)
    decreases |s|
  {
    if s != [] {
      var init := s[..|s| - 1];
      var x := s[|s| - 1];
      assert SortedPairwise(init, le);
      FilterKeepsPairwise(init, p, le);
      var f := Filter(init, p);
      forall y | y in f
        ensures le(y, x)
      {
        FilterMembership(init, p, y);
        var i :| 0 <= i < |init| && init[i] == y;
      }
    }
  }

  /** The listing keeps exactly the image files of the folder, each once, ordered by name. */
  lemma CollectImagesSpec(folder: Option<seq<Entry>>)
    ensures forall e :: e in CollectImages(folder) <==> folder.Some? && e in folder.value && IsImage(e)
    ensures SortedPairwise(CollectImages(folder), EntryLe)
    ensures folder.Some? ==>
              multiset(CollectImages(folder)) == multiset(Filter(folder.value, IsImage))
  {
    if folder.Some? {
      var entries := folder.value;
      var sorted := SortBy(entries, EntryLe);
      EntryLeOrder();
      SortBySorted(entries, EntryLe);
      SortedIsPairwise(sorted, EntryLe);
      FilterKeepsPairwise(sorted, IsImage, EntryLe);
      SortByPermutes(entries, EntryLe);
      forall e
        ensures e in CollectImages(folder) <==> e in entries && IsImage(e)
      {
        FilterMembership(sorted, IsImage, e);
        assert e in sorted <==> e in multiset(sorted);
      }
      FilterOfPermutation(sorted, entries, IsImage);
    }
  }

  lemma {:induction false} FilterMultiset<T>(s: seq<T>, p: T -> bool, x: T)
    ensures multiset(Filter(s, p))[x] == if p(x) then multiset(s)[x] else 0
    decreases |s|
  {
    if s != [] {
      var init := s[..|s| - 1];
      FilterMultiset(init, p, x);
      assert s == init + [s[|s| - 1]];
    }
  }

  /** Filtering permutations gives permutations. */
  lemma FilterOfPermutation<T>(a: seq<T>, b: seq<T>, p: T -> bool)
    requires multiset(a) == multiset(b)
    ensures multiset(Filter(a, p)) == multiset(Filter(b, p))
  {
    forall x: T
      ensures multiset(Filter(a, p))[x] == multiset(Filter(b, p))[x]
    {
      FilterMultiset(a, p, x);
      FilterMultiset(b, p, x);
    }
    MultisetExt(multiset(Filter(a, p)), multiset(Filter(b, p)));
  }

  lemma MultisetExt<T>(a: multiset<T>, b: multiset<T>)
    requires forall x :: a[x] == b[x]
    ensures a == b
  {
  }

  // ---------------------------------------------------------------------
  // write_yaml
  // ---------------------------------------------------------------------

  function ClassLine(i: nat, name: string): string {
    "  " + IntToString(i) + ": " + name
  }

  function YamlHeader(outName: string): seq<string> {
    ["path: " + outName, "train: images/train", "val: images/val", "", "names:"]
  }

  /** The lines of dataset.yaml. */
  function YamlLines(outName: string, names: seq<string>): seq<string> {
    YamlHeader(outName) + seq(|names|, i requires 0 <= i < |names| => ClassLine(i, names[i]))
  }

  /** `"\n".join(lines) + "\n"`. */
  function YamlText(outName: string, names: seq<string>): string {
    Join(YamlLines(outName, names), "\n") + "\n"
  }

  /** write_yaml: the lines appended in turn, then joined. */
  method WriteYaml(outName: string, names: seq<string>) returns (text: string)
    ensures text == YamlText(outName, names)
  {
    var lines := ["path: " + outName];
    lines := lines + ["train: images/train"];
    lines := lines + ["val: images/val"];
    lines := lines + [""];
    lines := lines + ["names:"];
    for i := 0 to |names|
      invariant lines == YamlHeader(outName) + seq(i, k requires 0 <= k < i => ClassLine(k, names[k]))
    {
      lines := lines + [ClassLine(i, names[i])];
    }
    text := Join(lines, "\n") + "\n";
  }

  lemma ClassLineNoBreak(i: nat, name: string)
    requires '\n' !in name
    ensures '\n' !in ClassLine(i, name)
  {
  }

  /**
   * Read back line by line, the YAML is the header, then one "  i: name"
   * line per class in index order, then nothing after the final newline.
   */
  lemma YamlLayout(outName: string, names: seq<string>)
    requires '\n' !in outName
    requires forall k :: 0 <= k < |names| ==> '\n' !in names[k]
    ensures Split(YamlText(outName, names), '\n') == YamlLines(outName, names) + [""]
    ensures |YamlLines(outName, names)| == 5 + |names|
    ensures YamlLines(outName, names)[..5] == ["path: " + outName, "train: images/train", "val: images/val", "", "names:"]
    ensures forall i :: 0 <= i < |names| ==> YamlLines(outName, names)[5 + i] == "  " + IntToString(i) + ": " + names[i]
  {
    var lines := YamlLines(outName, names);
    forall k | 0 <= k < |lines|
      ensures '\n' !in lines[k]
    {
      if k >= 5 {
        ClassLineNoBreak(k - 5, names[k - 5]);
      }
    }
    SplitJoin(lines, '\n');
    SplitConcat(Join(lines, "\n"), "", '\n');
    assert Join(lines, "\n") + "\n" == Join(lines, "\n") + ['\n'] + "";
  }

  // ---------------------------------------------------------------------
  // The split loop of main
  // ---------------------------------------------------------------------

  /** One copied image: its index in the listing, its label, and whether it goes to val. */
  datatype Copy = Copy(index: nat, image: string, labelFile: string, toVal: bool)

  /** The sub-folder of images/ and labels/ the copy goes to. */
  function SplitName(c: Copy): string {
    if c.toVal then "val" else "train"
  }

  /** The name the label gets in its new folder: the image's stem with ".txt". */
  function LabelDest(c: Copy): string {
    WithSuffix(c.image, ".txt")
  }

  /** The copied label carries the image's stem, whatever the label was called before. */
  lemma LabelDestMatchesImage(c: Copy)
    requires c.image != ""
    ensures Stem(LabelDest(c)) == Stem(c.image) && Suffix(LabelDest(c)) == ".txt"
  {
    var d := LabelDest(c);
    var st := Stem(c.image);
    assert d == st + ".txt";
    assert st != "";
    assert d[|st|] == '.';
    assert forall k :: |st| < k < |d| ==> d[k] != '.';
    assert RFind(d, '.') == |st|;
    assert d[..|st|] == st;
    assert d[|st|..] == ".txt";
  }

  /** find_label_for_image against one label folder, as a function of the image name. */
  function LabelLookup(existing: set<string>): string -> Option<string> {
    name => FindLabel(name, existing)
  }

  /** The label found for each image, in listing order. */
  function LabelsFound(images: seq<string>, labelOf: string -> Option<string>): (r: seq<Option<string>>)
    ensures |r| == |images| && forall k :: 0 <= k < |r| ==> r[k] == labelOf(images[k])
  {
    seq(|images|, k requires 0 <= k < |images| => labelOf(images[k]))
  }

  /** The copy made for image `i`: to val iff `i < valCount`, the label renamed after the image. */
  function CopyFor(i: nat, image: string, labelFile: string, valCount: int): Copy {
    Copy(i, image, labelFile, i < valCount)
  }

  /** What the loop does with image `i`: nothing when it has no label, else a copy. */
  function CopyOf(images: seq<string>, labels: seq<Option<string>>, valCount: int, i: nat): Option<Copy>
    requires i < |images| == |labels|
  {
    match labels[i]
    case None => None
    case Some(l) => Some(CopyFor(i, images[i], l, valCount))
  }

  /** The copies made for the first `n` images, in order. */
  function Copies(images: seq<string>, labels: seq<Option<string>>, valCount: int, n: nat): seq<Copy>
    requires n <= |images| == |labels|
    decreases n
  {
    if n == 0 then []
    else Copies(images, labels, valCount, n - 1)
         + (match CopyOf(images, labels, valCount, n - 1) case None => [] case Some(c) => [c])
  }

  /** The names of the first `n` images that have no label, in order. */
  function MissingNames(images: seq<string>, labels: seq<Option<string>>, n: nat): seq<string>
    requires n <= |images| == |labels|
    decreases n
  {
    if n == 0 then []
    else MissingNames(images, labels, n - 1) + (if labels[n - 1].None? then [images[n - 1]] else [])
  }

  /** How many of the first `n` images have a label and an index below `valCount`. */
  function ValCopies(labels: seq<Option<string>>, valCount: int, n: nat): nat
    requires n <= |labels|
    decreases n
  {
    if n == 0 then 0 else ValCopies(labels, valCount, n - 1) + (if labels[n - 1].Some? && n - 1 < valCount then 1 else 0)
  }

  /** How many of the first `n` images have a label and an index of at least `valCount`. */
  function TrainCopies(labels: seq<Option<string>>, valCount: int, n: nat): nat
    requires n <= |labels|
    decreases n
  {
    if n == 0 then 0 else TrainCopies(labels, valCount, n - 1) + (if labels[n - 1].Some? && n - 1 >= valCount then 1 else 0)
  }

  predicate ToVal(c: Copy) {
    c.toVal
  }

  /** The copy loop: each image is skipped as missing, or copied to val or train with its label. */
  method SplitImages(images: seq<string>, labelOf: string -> Option<string>, valCount: int)
    returns (copiedTrain: nat, copiedVal: nat, missing: seq<string>, copies: seq<Copy>)
    ensures copies == Copies(images, LabelsFound(images, labelOf), valCount, |images|)
    ensures missing == MissingNames(images, LabelsFound(images, labelOf), |images|)
    ensures copiedVal == ValCopies(LabelsFound(images, labelOf), valCount, |images|)
    ensures copiedTrain == TrainCopies(LabelsFound(images, labelOf), valCount, |images|)
  {
    // each copy puts the image into images/<SplitName>/ and its label into labels/<SplitName>/<LabelDest>
    ghost var labels := LabelsFound(images, labelOf);
    copiedTrain, copiedVal, missing, copies := 0, 0, [], [];
    for i := 0 to |images|
      invariant copies == Copies(images, labels, valCount, i)
      invariant missing == MissingNames(images, labels, i)
      invariant copiedVal == ValCopies(labels, valCount, i)
      invariant copiedTrain == TrainCopies(labels, valCount, i)
    {
      var found := labelOf(images[i]);
      if found.None? {
        SkipStep(images, labels, valCount, i);
        missing := missing + [images[i]];
      } else {
        var c := CopyFor(i, images[i], found.value, valCount);
        CopyStep(images, labels, valCount, i);
        copies := copies + [c];
        if c.toVal {
          copiedVal := copiedVal + 1;
        } else {
          copiedTrain := copiedTrain + 1;
        }
      }
    }
  }

  /** A step of the copy loop for an image without a label. */
  lemma SkipStep(images: seq<string>, labels: seq<Option<string>>, valCount: int, i: nat)
    requires i < |images| == |labels| && labels[i].None?
    ensures Copies(images, labels, valCount, i + 1) == Copies(images, labels, valCount, i)
    ensures MissingNames(images, labels, i + 1) == MissingNames(images, labels, i) + [images[i]]
  {
  }

  /** A step of the copy loop for an image with a label. */
  lemma CopyStep(images: seq<string>, labels: seq<Option<string>>, valCount: int, i: nat)
    requires i < |images| == |labels| && labels[i].Some?
    ensures MissingNames(images, labels, i + 1) == MissingNames(images, labels, i)
    ensures Copies(images, labels, valCount, i + 1)
            == Copies(images, labels, valCount, i) + [CopyFor(i, images[i], labels[i].value, valCount)]
  {
  }

  /** A copy of image `c.index` (one of the first `n`) with its found label, placed by index. */
  predicate Placed(images: seq<string>, labels: seq<Option<string>>, valCount: int, n: nat, c: Copy)
    requires |images| == |labels|
  {
    c.index < n && c.index < |images| && c.image == images[c.index] && labels[c.index] == Some(c.labelFile)
    && (c.toVal <==> c.index < valCount)
  }

  /** A copy goes to val iff its index is below val_count; indices count the skipped images too. */
  lemma {:induction false} CopiesPlacement(images: seq<string>, labels: seq<Option<string>>, valCount: int, n: nat)
    requires n <= |images| == |labels|
    ensures forall c :: c in Copies(images, labels, valCount, n) ==> Placed(images, labels, valCount, n, c)
    decreases n
  {
    if n > 0 {
      CopiesPlacement(images, labels, valCount, n - 1);
      if labels[n - 1].Some? {
        CopyStep(images, labels, valCount, n - 1);
      }
    }
  }

  /** Every image with a label is copied. */
  lemma {:induction false} LabelledImagesCopied(images: seq<string>, labels: seq<Option<string>>, valCount: int, n: nat)
    requires n <= |images| == |labels|
    ensures forall i :: 0 <= i < n && labels[i].Some? ==>
              exists c :: c in Copies(images, labels, valCount, n) && c.index == i
    decreases n
  {
    if n > 0 {
      LabelledImagesCopied(images, labels, valCount, n - 1);
      var prev := Copies(images, labels, valCount, n - 1);
      if labels[n - 1].Some? {
        CopyStep(images, labels, valCount, n - 1);
        var c := CopyFor(n - 1, images[n - 1], labels[n - 1].value, valCount);
        assert c in prev + [c];
      }
    }
  }

  /** Every image is counted once: as a train copy, a val copy or a missing label. */
  lemma {:induction false} EveryImageAccounted(images: seq<string>, labels: seq<Option<string>>, valCount: int, n: nat)
    requires n <= |images| == |labels|
    ensures |Copies(images, labels, valCount, n)| == TrainCopies(labels, valCount, n) + ValCopies(labels, valCount, n)
    ensures TrainCopies(labels, valCount, n) + ValCopies(labels, valCount, n) + |MissingNames(images, labels, n)| == n
    decreases n
  {
    if n > 0 {
      EveryImageAccounted(images, labels, valCount, n - 1);
      if labels[n - 1].Some? {
        CopyStep(images, labels, valCount, n - 1);
      }
    }
  }

  /** The val counter counts exactly the copies that go to val. */
  lemma {:induction false} ValCopiesCounted(images: seq<string>, labels: seq<Option<string>>, valCount: int, n: nat)
    requires n <= |images| == |labels|
    ensures ValCopies(labels, valCount, n) == |Filter(Copies(images, labels, valCount, n), ToVal)|
    decreases n
  {
    if n > 0 {
      ValCopiesCounted(images, labels, valCount, n - 1);
      var prev := Copies(images, labels, valCount, n - 1);
      if labels[n - 1].Some? {
        CopyStep(images, labels, valCount, n - 1);
        var c := CopyFor(n - 1, images[n - 1], labels[n - 1].value, valCount);
        FilterSnoc(prev, ToVal, c);
        assert ValCopies(labels, valCount, n) == ValCopies(labels, valCount, n - 1) + (if ToVal(c) then 1 else 0);
      } else {
        SkipStep(images, labels, valCount, n - 1);
        assert ValCopies(labels, valCount, n) == ValCopies(labels, valCount, n - 1);
      }
    }
  }

  /** At most val_count images reach val. */
  lemma {:induction false} ValBounded(labels: seq<Option<string>>, valCount: int, n: nat)
    requires n <= |labels|
    ensures ValCopies(labels, valCount, n) <= if valCount < 0 then 0 else if valCount < n then valCount else n
    decreases n
  {
    if n > 0 {
      ValBounded(labels, valCount, n - 1);
    }
  }

  /** When every image has a label, the first val_count of them go to val. */
  lemma {:induction false} ValFilledWhenLabelled(labels: seq<Option<string>>, valCount: int, n: nat)
    requires n <= |labels|
    requires forall k :: 0 <= k < n ==> labels[k].Some?
    ensures ValCopies(labels, valCount, n) == if valCount < 0 then 0 else if valCount < n then valCount else n
    decreases n
  {
    if n > 0 {
      ValFilledWhenLabelled(labels, valCount, n - 1);
    }
  }

  // ---------------------------------------------------------------------
  // main
  // ---------------------------------------------------------------------

  datatype Summary = Summary(
    names: seq<string>, yaml: string,
    copiedTrain: nat, copiedVal: nat, missing: seq<string>, copies: seq<Copy>)

  /**
   * main without the file copying: read the classes, check the source
   * folder, list its images, split them, and build the YAML.
   */
  method PrepareDataset(classesFile: Option<string>, folder: Option<seq<Entry>>, existing: set<string>,
                        valCount: int, outName: string)
    returns (r: Result<Summary, DatasetError>)
    ensures classesFile.None? ==> r == Err(ClassesNotFound)
    ensures classesFile.Some? && ClassNames(classesFile.value) == [] ==> r == Err(NoClassNames)
    ensures classesFile.Some? && ClassNames(classesFile.value) != [] && folder.None? ==> r == Err(SourceFolderNotFound)
    ensures classesFile.Some? && ClassNames(classesFile.value) != [] && folder.Some? && CollectImages(folder) == [] ==>
              r == Err(NoImages)
    ensures classesFile.Some? && ClassNames(classesFile.value) != [] && folder.Some? && CollectImages(folder) != [] ==>
              r.Ok?
    ensures r.Ok? ==>
              var names := ImageNames(CollectImages(folder));
              var labels := LabelsFound(names, LabelLookup(existing));
              && r.value.copiedVal == ValCopies(labels, valCount, |names|)
              && r.value.copiedTrain == TrainCopies(labels, valCount, |names|)
              && r.value.missing == MissingNames(names, labels, |names|)
    ensures r.Ok? ==>
              classesFile.Some? && folder.Some?
              && r.value.names == ClassNames(classesFile.value) != []
              && r.value.yaml == YamlText(outName, r.value.names)
              && r.value.copiedTrain + r.value.copiedVal + |r.value.missing| == |CollectImages(folder)|
              && r.value.copies == Copies(ImageNames(CollectImages(folder)),
                                          LabelsFound(ImageNames(CollectImages(folder)), LabelLookup(existing)),
                                          valCount, |CollectImages(folder)|)
  {
    var classes := ReadClasses(classesFile);
    if classes.Err? {
      return Err(classes.error);
    }
    if folder.None? {
      return Err(SourceFolderNotFound);
    }
    var images := CollectImages(folder);
    if images == [] {
      return Err(NoImages);
    }
    var names := ImageNames(images);
    var copiedTrain, copiedVal, missing, copies := SplitImages(names, LabelLookup(existing), valCount);
    EveryImageAccounted(names, LabelsFound(names, LabelLookup(existing)), valCount, |names|);
    var yaml := WriteYaml(outName, classes.value);
    return Ok(Summary(classes.value, yaml, copiedTrain, copiedVal, missing, copies));
  }

  function ImageNames(images: seq<Entry>): (r: seq<string>)
    ensures |r| == |images| && forall k :: 0 <= k < |r| ==> r[k] == images[k].name
  {
    seq(|images|, k requires 0 <= k < |images| => images[k].name)
  }
}
