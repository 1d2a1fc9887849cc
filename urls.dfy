/** Archive-relative URL handling: the title an image placeholder refers to
    (regexpImageUrl, www/js/app.js:935) and the choice of device storage from
    the first segment of an archive directory (www/js/app.js:634-661). */
module ArchiveUrls {
  import opened Text
  import opened Wrappers


  /** The characters `.` refuses in a JavaScript regular expression. */
  predicate IsLineTerminator(c: char)
  {
    c == '\n' || c == '\r' || c == '\U{2028}' || c == '\U{2029}'
  }

  predicate NoLineTerminator(s: string)
  {
    forall i :: 0 <= i < |s| ==> !IsLineTerminator(s[i])
  }

  /** Length of the run of "../" and "/" pieces at the start of `s`, taken
      greedily; each character decides the piece, so the run is unique. */
  function LeadingRun(s: string): (n: nat)
    ensures n <= |s|
  {
    if StartsWith(s, "../") then 3 + LeadingRun(s[3..])
    else if StartsWith(s, "/") then 1 + LeadingRun(s[1..])
    else 0
  }

  /** The title captured by `/^(?:\.\.\/|\/)+(I\/.*)$/` (before URI decoding):
      at least one "../" or "/" piece, then "I/" and the rest of the string,
      which may not hold a line terminator. */
  function ImageTitle(src: string): Option<string>
  {
    var k := LeadingRun(src);
    var rest := src[k..];
    if k >= 1 && StartsWith(rest, "I/") && NoLineTerminator(rest) then Some(rest) else None
  }

  /** The prefix spelled by a list of pieces: true for "../", false for "/". */
  function Pieces(ups: seq<bool>): (p: string)
  {
    if ups == [] then "" else (if ups[0] then "../" else "/") + Pieces(ups[1..])
  }

  lemma {:induction false} LeadingRunOfPieces(ups: seq<bool>, t: string)
    requires t == [] || (t[0] != '.' && t[0] != '/')
    ensures LeadingRun(Pieces(ups) + t) == |Pieces(ups)|
  {
    if ups != [] {
      var s := Pieces(ups) + t;
      var piece := if ups[0] then "../" else "/";
      assert s == piece + (Pieces(ups[1..]) + t);
      LeadingRunOfPieces(ups[1..], t);
      assert s[|piece|..] == Pieces(ups[1..]) + t;
      if !ups[0] {
        assert !StartsWith(s, "../") by { assert s[0] == '/'; }
      }
    } else {
      assert Pieces(ups) + t == t;
      if |t| >= 1 {
        assert !StartsWith(t, "../") && !StartsWith(t, "/") by { assert t[..1][0] == t[0]; }
      }
    }
  }

  /** Round trip: any non-empty run of "../" and "/" pieces in front of an
      "I/..." title without line terminators gives that title back. */
  lemma ImageTitleOfPrefixedTitle(ups: seq<bool>, t: string)
    requires ups != []
    requires StartsWith(t, "I/") && NoLineTerminator(t)
    ensures ImageTitle(Pieces(ups) + t) == Some(t)
  {
    LeadingRunOfPieces(ups, t);
    var s := Pieces(ups) + t;
    assert s[|Pieces(ups)|..] == t;
    assert |Pieces(ups)| >= 1 by {
      assert Pieces(ups) == (if ups[0] then "../" else "/") + Pieces(ups[1..]);
    }
  }

  /** The pieces that make up the leading run of `s`, in order. */
  function RunPieces(s: string): (ups: seq<bool>)
    ensures Pieces(ups) == s[..LeadingRun(s)]
  {
    if StartsWith(s, "../") then
      var rest := RunPieces(s[3..]);
      assert s[..LeadingRun(s)] == "../" + s[3..][..LeadingRun(s[3..])];
      [true] + rest
    else if StartsWith(s, "/") then
      var rest := RunPieces(s[1..]);
      assert s[..LeadingRun(s)] == "/" + s[1..][..LeadingRun(s[1..])];
      [false] + rest
    else []
  }

  /** Whatever is captured is an "I/" title without line terminators that ends
      the source string after a non-empty run of "../" and "/" pieces. */
  lemma ImageTitleShape(src: string)
    requires ImageTitle(src).Some?
    ensures var t := ImageTitle(src).value;
      StartsWith(t, "I/") && NoLineTerminator(t) && |t| < |src| && src == src[..|src| - |t|] + t
    ensures exists ups :: ups != [] && src == Pieces(ups) + ImageTitle(src).value
  {
    var ups := RunPieces(src);
    assert src == src[..LeadingRun(src)] + src[LeadingRun(src)..];
    assert ups != [] by { assert |Pieces(ups)| >= 1; }
  }

  /** The capture of `/^\/([^\/]+)\//`: the first path segment of an absolute directory. */
  function StorageName(dir: string): Option<string>
  {
    if |dir| >= 1 && dir[0] == '/' then
      var j := FirstSlashFrom(dir, 1);
      if j > 1 && j < |dir| then Some(dir[1..j]) else None
    else None
  }

  /** Position of the first '/' at or after `i`, or |s| when there is none. */
  function FirstSlashFrom(s: string, i: nat): (j: nat)
    requires i <= |s|
    ensures i <= j <= |s|
    ensures j < |s| ==> s[j] == '/'
    ensures forall k :: i <= k < j ==> s[k] != '/'
    decreases |s| - i
  {
    if i == |s| || s[i] == '/' then i else FirstSlashFrom(s, i + 1)
  }

  /** What setLocalArchiveFromArchiveList settles on: no directory selected, the
      index of the chosen storage, or one of its two alerts. */
  datatype StorageChoice =
    | NoDirectory
    | Chosen(index: nat)
    | UnknownStorage      // "Unable to find which device storage corresponds to ..."
    | UnprefixedDirectory // "Something weird happened with the DeviceStorage API ..."

  /** Reference definition: the last position of `name` in `names`. */
  function LastIndexOf(names: seq<string>, name: string): (r: Option<nat>)
    ensures r.Some? ==> r.value < |names| && names[r.value] == name
    ensures r.Some? ==> forall j :: r.value < j < |names| ==> names[j] != name
    ensures r.None? ==> name !in names
  {
    if names == [] then None
    else if names[|names| - 1] == name then Some(|names| - 1)
    else
      var r := LastIndexOf(names[..|names| - 1], name);
      assert names == names[..|names| - 1] + [names[|names| - 1]];
      r
  }

  /** The storage chosen for archive directory `dir` among storages named
      `names`: with a "/name/" prefix, the LAST storage of that name (the loop
      does not stop at the first match); without one, the only storage if
      there is exactly one. */
  method SelectStorage(dir: string, names: seq<string>) returns (choice: StorageChoice)
    ensures dir == "" ==> choice == NoDirectory
    ensures dir != "" && StorageName(dir).Some? ==>
      match LastIndexOf(names, StorageName(dir).value)
      case Some(i) => choice == Chosen(i)
      case None => choice == UnknownStorage
    ensures dir != "" && StorageName(dir).None? ==>
      choice == (if |names| == 1 then Chosen(0) else UnprefixedDirectory)
  {
    if |dir| == 0 {
      return NoDirectory;
    }
    var storageName := StorageName(dir);
    if storageName.Some? {
      var name := storageName.value;
      var selected: Option<nat> := None;
      var i := 0;
      while i < |names|
        invariant 0 <= i <= |names|
        invariant selected == LastIndexOf(names[..i], name)
      {
        assert names[..i + 1][..i] == names[..i];
        if name == names[i] {
          selected := Some(i);
        }
        i := i + 1;
      }
      assert names[..i] == names;
      choice := if selected.None? then UnknownStorage else Chosen(selected.value);
    } else {
      choice := if |names| == 1 then Chosen(0) else UnprefixedDirectory;
    }
  }
}
