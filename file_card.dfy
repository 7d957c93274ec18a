/**
 * The string helpers of the file card (src/components/FileCard.jsx): the
 * shortened display name, the icon choice and the list view's type label.
 */
module FileCard {
  import opened Wrappers

  /** `truncateFileName`'s default maximum, used by the grid view. */
  const DefaultMaxLength: int := 20
  /** The list view's maximum on a small screen and on a larger one. */
  const ListMaxMobile: int := 15
  const ListMaxWide: int := 25

  function Min(a: int, b: int): int { if a <= b then a else b }
  function Max(a: int, b: int): int { if a <= b then b else a }

  predicate StartsWith(s: string, prefix: string) {
    |prefix| <= |s| && s[..|prefix|] == prefix
  }

  predicate EndsWith(s: string, suffix: string) {
    |suffix| <= |s| && s[|s| - |suffix|..] == suffix
  }

  /** The position of the last `c` in `s`. */
  function LastIndexOf(s: string, c: char): (r: Option<nat>)
    ensures r.None? <==> c !in s
    ensures r.Some? ==> r.value < |s| && s[r.value] == c && c !in s[r.value + 1..]
  {
    if s == [] then None
    else if s[|s| - 1] == c then Some(|s| - 1)
    else
      var r := LastIndexOf(s[..|s| - 1], c);
      assert s == s[..|s| - 1] + [s[|s| - 1]];
      if r.Some? then assert s[r.value + 1..] == s[..|s| - 1][r.value + 1..] + [s[|s| - 1]]; r
      else r
  }

  /** The position of the first `c` in `s`. */
  function IndexOf(s: string, c: char): (r: Option<nat>)
    ensures r.None? <==> c !in s
    ensures r.Some? ==> r.value < |s| && s[r.value] == c && c !in s[..r.value]
  {
    if s == [] then None
    else if s[0] == c then Some(0)
    else
      match IndexOf(s[1..], c)
      case None => assert s == [s[0]] + s[1..]; None
      case Some(i) => assert s[..i + 1] == [s[0]] + s[1..][..i]; Some(i + 1)
  }

  /**
   * `name.split('.').pop()`: the text after the last '.', or the whole name
   * when it has none.
   */
  function Extension(name: string): (ext: string)
    ensures '.' !in ext
    ensures '.' !in name ==> ext == name
    ensures '.' in name ==> |ext| < |name| && name[|name| - |ext| - 1] == '.' && EndsWith(name, ext)
  {
    match LastIndexOf(name, '.')
    case None => name
    case Some(i) => name[i + 1..]
  }

  /**
   * JavaScript `s.slice(0, end)`: a negative `end` counts back from the end,
   * and an end outside the string is clamped to it.
   */
  function SliceTo(s: string, end: int): (r: string)
    ensures |r| == if end >= 0 then Min(end, |s|) else Max(|s| + end, 0)
    ensures r == s[..|r|]
  {
    if end >= 0 then s[..Min(end, |s|)] else s[..Max(|s| + end, 0)]
  }

  /**
   * `nameWithoutExt`: the name cut before the extension and its dot. A name
   * without a dot has the whole name as extension, so the cut leaves nothing.
   */
  function Stem(name: string): (stem: string)
    ensures '.' in name ==> stem + "." + Extension(name) == name
    ensures '.' !in name ==> stem == ""
  {
    var ext := Extension(name);
    var stem := SliceTo(name, -(|ext| + 1));
    assert '.' in name ==> stem == name[..|name| - |ext| - 1];
    assert '.' in name ==> name == name[..|name| - |ext| - 1] + "." + name[|name| - |ext|..];
    stem
  }

  /**
   * `truncateFileName(name, maxLength)`. A name that fits is returned as is;
   * a longer one is cut to its shortened stem, then "...", a dot and the
   * extension, so the extension always survives.
   */
  function TruncateFileName(name: string, maxLength: int): (r: string)
    ensures |name| <= maxLength ==> r == name
    ensures |name| > maxLength ==> EndsWith(r, "." + Extension(name))
  {
    if |name| <= maxLength then name
    else
      var truncated := SliceTo(Stem(name), maxLength - 3) + "...";
      var r := truncated + ("." + Extension(name));
      assert r[|truncated|..] == "." + Extension(name);
      r
  }

  /**
   * A long name keeps the first `maxLength - 3` characters of its stem
   * (all of it when shorter), then "...", a dot and the extension.
   */
  lemma TruncateShape(name: string, maxLength: int)
    requires |name| > maxLength >= 3
    ensures TruncateFileName(name, maxLength)
         == Stem(name)[..Min(|Stem(name)|, maxLength - 3)] + "..." + "." + Extension(name)
  {
    assert SliceTo(Stem(name), maxLength - 3) == Stem(name)[..Min(|Stem(name)|, maxLength - 3)];
  }

  /**
   * With a maximum below 3, `slice(0, maxLength - 3)` gets a negative end and
   * drops `3 - maxLength` characters from the end of the stem instead.
   */
  lemma TruncateShapeSmallMax(name: string, maxLength: int)
    requires |name| > maxLength && maxLength < 3
    ensures TruncateFileName(name, maxLength)
         == Stem(name)[..Max(|Stem(name)| + maxLength - 3, 0)] + "..." + "." + Extension(name)
  {
    assert SliceTo(Stem(name), maxLength - 3) == Stem(name)[..Max(|Stem(name)| + maxLength - 3, 0)];
  }

  /**
   * For a name made of a stem, a dot and a dot-free extension, a long name
   * keeps the first `maxLength - 3` characters of that stem, then "....",
   * then the extension.
   */
  lemma {:induction false} TruncateDotted(stem: string, ext: string, maxLength: int)
    requires '.' !in ext
    requires |stem| + 1 + |ext| > maxLength >= 3
    ensures TruncateFileName(stem + "." + ext, maxLength) == stem[..Min(|stem|, maxLength - 3)] + "...." + ext
  {
    var name := stem + "." + ext;
    ExtensionOfDotted(stem, ext);
    assert Stem(name) + "." + ext == name;
    assert Stem(name) == stem;
    TruncateShape(name, maxLength);
  }

  /** The last dot of `stem + "." + ext` is the one before `ext`. */
  lemma {:induction false} ExtensionOfDotted(stem: string, ext: string)
    requires '.' !in ext
    ensures Extension(stem + "." + ext) == ext
  {
    var name := stem + "." + ext;
    assert name[|stem|] == '.';
    assert name[|stem| + 1..] == ext;
  }

  /**
   * A long name without a dot comes out as "...." followed by the whole
   * name: its extension is the name itself and its stem is empty, so the
   * result is four characters longer than the input.
   */
  lemma TruncateNoDot(name: string, maxLength: int)
    requires '.' !in name
    requires |name| > maxLength
    ensures TruncateFileName(name, maxLength) == "...." + name
    ensures |TruncateFileName(name, maxLength)| == |name| + 4
  {
  }

  /**
   * The length of a shortened name: the kept part of the stem, four
   * characters of "....", and the whole extension.
   */
  lemma TruncateLength(name: string, maxLength: int)
    requires |name| > maxLength >= 3
    ensures |TruncateFileName(name, maxLength)| == Min(|Stem(name)|, maxLength - 3) + 4 + |Extension(name)|
  {
    TruncateShape(name, maxLength);
  }

  /**
   * Whenever the stem has at least `maxLength - 3` characters, the shortened
   * name is longer than `maxLength`, by one plus the extension's length.
   */
  lemma TruncateExceedsMax(name: string, maxLength: int)
    requires |name| > maxLength >= 3
    requires |Stem(name)| >= maxLength - 3
    ensures |TruncateFileName(name, maxLength)| == maxLength + 1 + |Extension(name)|
    ensures |TruncateFileName(name, maxLength)| > maxLength
  {
    TruncateLength(name, maxLength);
  }

  /** The icons `getFileIcon` chooses between. */
  datatype Icon = ImageIcon | PdfIcon | GenericIcon

  /**
   * `getFileIcon`: any "image/" type gets the image icon (checked first),
   * exactly "application/pdf" the pdf icon, everything else the generic one.
   */
  function FileIcon(mimeType: string): (icon: Icon)
    ensures icon == ImageIcon <==> StartsWith(mimeType, "image/")
    ensures icon == PdfIcon <==> mimeType == "application/pdf"
    ensures icon == GenericIcon <==> !StartsWith(mimeType, "image/") && mimeType != "application/pdf"
  {
    assert "application/pdf"[0] != "image/"[0];
    if StartsWith(mimeType, "image/") then ImageIcon
    else if mimeType == "application/pdf" then PdfIcon
    else GenericIcon
  }

  /** `toUpperCase` on one character, for the ASCII letters. */
  function UpperChar(c: char): char {
    if 'a' <= c <= 'z' then (c as int - 32) as char else c
  }

  /** `toUpperCase` on ASCII text: lower-case letters become upper-case, the rest is kept. */
  function ToUpper(s: string): (r: string)
    ensures |r| == |s|
    ensures forall i :: 0 <= i < |s| ==> r[i] == UpperChar(s[i])
    ensures forall i :: 0 <= i < |r| ==> !('a' <= r[i] <= 'z')
  {
    seq(|s|, i requires 0 <= i < |s| => UpperChar(s[i]))
  }

  /**
   * `mimeType.split('/')[1]`: the segment after the first '/', up to the next
   * '/' or the end. None when there is no '/', where index 1 is undefined.
   */
  function Subtype(mimeType: string): (seg: Option<string>)
    ensures seg.None? <==> '/' !in mimeType
    ensures seg.Some? ==> '/' !in seg.value
  {
    match IndexOf(mimeType, '/')
    case None => None
    case Some(i) =>
      var rest := mimeType[i + 1..];
      match IndexOf(rest, '/')
      case None => Some(rest)
      case Some(j) => Some(rest[..j])
  }

  /** The list view's type column: the subtype, upper-cased. */
  function TypeLabel(mimeType: string): (shown: Option<string>)
    ensures shown.None? <==> '/' !in mimeType
    ensures shown.Some? ==> shown == Some(ToUpper(Subtype(mimeType).value))
  {
    match Subtype(mimeType)
    case None => None
    case Some(seg) => Some(ToUpper(seg))
  }

  /** The first '/' of `main + "/" + rest` is the one after `main`. */
  lemma {:induction false} IndexOfAfter(main: string, rest: string)
    requires '/' !in main
    ensures IndexOf(main + "/" + rest, '/') == Some(|main|)
  {
    var t := main + "/" + rest;
    assert t[|main|] == '/';
    assert t[..|main|] == main;
  }

  /**
   * For a type "main/sub" followed by nothing or by a further "/...", the
   * second segment is exactly `sub`.
   */
  lemma {:induction false} SubtypeOfParts(main: string, sub: string, tail: string)
    requires '/' !in main && '/' !in sub
    requires tail == [] || tail[0] == '/'
    ensures Subtype(main + "/" + sub + tail) == Some(sub)
  {
    var t := main + "/" + sub + tail;
    assert t == main + "/" + (sub + tail);
    IndexOfAfter(main, sub + tail);
    var rest := t[|main| + 1..];
    assert rest == sub + tail;
    if tail == [] {
      assert rest == sub;
    } else {
      assert rest == sub + "/" + tail[1..];
      IndexOfAfter(sub, tail[1..]);
      assert rest[..|sub|] == sub;
    }
  }

  /** For a type "main/sub" or "main/sub/...", the label is exactly `sub` upper-cased. */
  lemma {:induction false} TypeLabelOfParts(main: string, sub: string, tail: string)
    requires '/' !in main && '/' !in sub
    requires tail == [] || tail[0] == '/'
    ensures TypeLabel(main + "/" + sub + tail) == Some(ToUpper(sub))
  {
    SubtypeOfParts(main, sub, tail);
  }

  /** What the type column of a card shows. */
  datatype TypeCell = Hidden | Shown(text: string) | Throws

  /**
   * The type column: only a list row on a larger screen has one. There it
   * shows the label, and a type without '/' makes `toUpperCase` throw on
   * `undefined`, so the row fails to render. The grid card has no type column.
   */
  function TypeColumn(mimeType: string, viewType: string, isMobile: bool): (cell: TypeCell)
    ensures cell == Hidden <==> viewType != "list" || isMobile
    ensures cell == Throws <==> viewType == "list" && !isMobile && '/' !in mimeType
    ensures cell.Shown? ==> TypeLabel(mimeType) == Some(cell.text)
  {
    if viewType != "list" || isMobile then Hidden
    else
      match TypeLabel(mimeType)
      case None => Throws
      case Some(text) => Shown(text)
  }

  /** The maximum the card passes to `truncateFileName` for a view. */
  function NameMaxLength(viewType: string, isMobile: bool): (m: int)
    ensures m in {ListMaxMobile, DefaultMaxLength, ListMaxWide}
    ensures viewType == "list" ==> m == (if isMobile then ListMaxMobile else ListMaxWide)
    ensures viewType != "list" ==> m == DefaultMaxLength
  {
    if viewType == "list" then (if isMobile then ListMaxMobile else ListMaxWide)
    else DefaultMaxLength
  }

  /** The name as the card shows it: list rows use 15 or 25, every other view the default 20. */
  function ShownName(name: string, viewType: string, isMobile: bool): string {
    TruncateFileName(name, NameMaxLength(viewType, isMobile))
  }

  /** A name of at most 15 characters is shown in full in every view. */
  lemma ShortNamesShownInFull(name: string, viewType: string, isMobile: bool)
    requires |name| <= ListMaxMobile
    ensures ShownName(name, viewType, isMobile) == name
  {
  }
}
