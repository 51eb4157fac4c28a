/**
 * The pieces the profile-image upload builds its file name from: the textual
 * form of a `Guid`, `Path.GetExtension` of the uploaded file's name, and the
 * name pattern `p_<user id>_<guid><extension>` itself.
 */
module ProfileImages {

  /** An uploaded `IFormFile`: the client-supplied name and the length in bytes. */
  datatype FormFile = FormFile(fileName: string, length: nat)

  /** One hexadecimal digit of a GUID. */
  type Nibble = n: int | 0 <= n < 16

  /** A GUID as its 32 hexadecimal digits, most significant first, in the
      order `Guid.ToString()` writes them. */
  type Guid = s: seq<Nibble> | |s| == 32 witness seq(32, _ => 0)

  /** Lower-case hexadecimal digit, as `Guid.ToString()` writes it. */
  function HexDigit(n: Nibble): (c: char)
    ensures c in "0123456789abcdef"
  {
    if n < 10 then ('0' as int + n) as char else ('a' as int + n - 10) as char
  }

  lemma HexDigitInjective(m: Nibble, n: Nibble)
    requires HexDigit(m) == HexDigit(n)
    ensures m == n
  {
  }

  /** Where the i-th digit lands in the 8-4-4-4-12 layout. */
  function DigitPosition(i: nat): (p: nat)
    requires i < 32
    ensures p < 36 && p != 8 && p != 13 && p != 18 && p != 23
  {
    if i < 8 then i else if i < 12 then i + 1 else if i < 16 then i + 2 else if i < 20 then i + 3 else i + 4
  }

  /** Character j of the "D" format: a hyphen between groups, otherwise the
      digit whose place it is. */
  function GuidChar(g: Guid, j: nat): char
    requires j < 36
  {
    if j == 8 || j == 13 || j == 18 || j == 23 then '-'
    else HexDigit(g[if j < 8 then j else if j < 13 then j - 1 else if j < 18 then j - 2 else if j < 23 then j - 3 else j - 4])
  }

  /** `Guid.ToString()`: the "D" format, 32 lower-case digits in groups of
      8-4-4-4-12 separated by hyphens. */
  function GuidToString(g: Guid): (r: string)
    ensures |r| == 36
    ensures r[8] == '-' && r[13] == '-' && r[18] == '-' && r[23] == '-'
    ensures forall i :: 0 <= i < 32 ==> r[DigitPosition(i)] == HexDigit(g[i])
  {
    seq(36, j requires 0 <= j < 36 => GuidChar(g, j))
  }

  /** Distinct GUIDs are written differently. */
  lemma GuidToStringInjective(g1: Guid, g2: Guid)
    requires GuidToString(g1) == GuidToString(g2)
    ensures g1 == g2
  {
    forall i | 0 <= i < 32
      ensures g1[i] == g2[i]
    {
      assert GuidToString(g1)[DigitPosition(i)] == GuidToString(g2)[DigitPosition(i)];
      HexDigitInjective(g1[i], g2[i]);
    }
  }

  /** `Path.DirectorySeparatorChar` and `Path.AltDirectorySeparatorChar`. */
  predicate IsDirectorySeparator(c: char) {
    c == '/' || c == '\\'
  }

  /** Some position in lo..hi-1 of the path holds a directory separator. */
  predicate SeparatorBetween(path: string, lo: int, hi: int) {
    exists m :: lo <= m < hi && 0 <= m < |path| && IsDirectorySeparator(path[m])
  }

  /** The scan of `Path.GetExtension` over the positions below `i`, from the
      right: the first '.' met ends the scan (with no extension when it is
      the path's last character), and so does a directory separator. */
  function ExtensionFrom(path: string, i: nat): (r: string)
    requires i <= |path|
    ensures r != [] ==>
      && 2 <= |r| <= |path| && r[0] == '.' && r == path[|path| - |r|..] && |path| - |r| < i
      && forall k :: |path| - |r| < k < i ==> path[k] != '.' && !IsDirectorySeparator(path[k])
    ensures r == [] ==>
      || (0 < |path| <= i && path[|path| - 1] == '.')
      || forall k :: 0 <= k < i && path[k] == '.' ==> SeparatorBetween(path, k + 1, i)
  {
    if i == 0 then []
    else if path[i - 1] == '.' then (if i - 1 != |path| - 1 then path[i - 1..] else [])
    else if IsDirectorySeparator(path[i - 1]) then []
    else ExtensionFrom(path, i - 1)
  }

  /** `Path.GetExtension`: the suffix from the last '.' of the last path
      segment, or empty when that segment has no '.' or ends in one. */
  function GetExtension(path: string): (ext: string)
    ensures ext != [] ==>
      && 2 <= |ext| <= |path| && ext[0] == '.' && ext == path[|path| - |ext|..]
      && forall k :: 1 <= k < |ext| ==> ext[k] != '.' && !IsDirectorySeparator(ext[k])
    ensures ext == [] ==>
      || (|path| > 0 && path[|path| - 1] == '.')
      || forall k :: 0 <= k < |path| && path[k] == '.' ==> SeparatorBetween(path, k + 1, |path|)
  {
    var ext := ExtensionFrom(path, |path|);
    assert ext != [] ==> forall k :: 1 <= k < |ext| ==> ext[k] == path[|path| - |ext| + k];
    assert path[..|path|] == path;
    ext
  }

  /** The stored name of an uploaded profile image. */
  function ProfileImageFileName(userId: string, guid: Guid, ext: string): (name: string)
    // "p_", the user id, "_", the 36 characters of the GUID, then the extension
    ensures |name| == |userId| + 39 + |ext|
    ensures name[..2] == "p_" && name[2..|userId| + 2] == userId && name[|userId| + 2] == '_'
    ensures name[|userId| + 3..|userId| + 39] == GuidToString(guid) && name[|userId| + 39..] == ext
  {
    "p_" + userId + "_" + GuidToString(guid) + ext
  }

  /** For one user, the stored name determines the GUID and the extension:
      uploads with different GUIDs never share a file name. */
  lemma FileNameDeterminesGuid(userId: string, g1: Guid, e1: string, g2: Guid, e2: string)
    requires ProfileImageFileName(userId, g1, e1) == ProfileImageFileName(userId, g2, e2)
    ensures g1 == g2 && e1 == e2
  {
    var n := |userId| + 3;
    var name1, name2 := ProfileImageFileName(userId, g1, e1), ProfileImageFileName(userId, g2, e2);
    assert name1[n..n + 36] == GuidToString(g1);
    assert name2[n..n + 36] == GuidToString(g2);
    GuidToStringInjective(g1, g2);
    assert name1[n + 36..] == e1;
    assert name2[n + 36..] == e2;
  }

  /** A name ending in a well-formed extension has that extension. */
  lemma ExtensionOfSuffix(prefix: string, ext: string)
    requires 2 <= |ext| && ext[0] == '.'
    requires forall k :: 1 <= k < |ext| ==> ext[k] != '.' && !IsDirectorySeparator(ext[k])
    ensures GetExtension(prefix + ext) == ext
  {
    var path := prefix + ext;
    var r := GetExtension(path);
    var p := |prefix|;
    assert forall k :: p <= k < |path| ==> path[k] == ext[k - p];
    assert path[|path| - 1] == ext[|ext| - 1];
    assert path[p] == '.';
    assert ext[0] == path[|path| - |ext|];
    assert r != [] ==> r[0] == path[|path| - |r|];
  }

  /** The stored file keeps the uploaded file's extension. */
  lemma FileNameKeepsExtension(userId: string, guid: Guid, uploaded: string)
    requires GetExtension(uploaded) != []
    ensures GetExtension(ProfileImageFileName(userId, guid, GetExtension(uploaded))) == GetExtension(uploaded)
  {
    ExtensionOfSuffix("p_" + userId + "_" + GuidToString(guid), GetExtension(uploaded));
  }

  /** An upload without an extension gives a stored name without one, as
      long as the user id has no '.'. */
  lemma FileNameWithoutExtension(userId: string, guid: Guid, uploaded: string)
    requires '.' !in userId
    requires GetExtension(uploaded) == []
    ensures GetExtension(ProfileImageFileName(userId, guid, GetExtension(uploaded))) == []
  {
    var name := ProfileImageFileName(userId, guid, GetExtension(uploaded));
    assert '.' !in GuidToString(guid);
    assert '.' !in name;
  }
}
