/**
 * Where the disk image goes. The image directory is a constant; the disk path is
 * `filepath.Join(IMAGE_DIR, name + ".qcow2")` and the directory guard looks at
 * `filepath.Dir` of that path. Join and Dir are Go library functions; they are
 * written out here by the lexical rules for slash-separated paths (Clean drops
 * empty and "." segments, lets ".." remove the segment before it, and never
 * climbs above the root of a rooted path), so that the disk path is defined
 * for every VM name.
 */
module Paths {

  const IMAGE_DIR: string := "/var/lib/libvirt/images"
  const DISK_SUFFIX: string := ".qcow2"

  /** The segments of `p` between slashes; an empty string between two adjacent slashes. */
  function Split(p: string): (r: seq<string>)
    ensures |r| > 0
  {
    if p == [] then [""]
    else
      var rest := Split(p[1..]);
      if p[0] == '/' then [""] + rest else [[p[0]] + rest[0]] + rest[1..]
  }

  /** Applies the segments to a stack of kept segments, left to right. */
  function Reduce(kept: seq<string>, segs: seq<string>, rooted: bool): seq<string>
    decreases |segs|
  {
    if segs == [] then kept
    else
      var s := segs[0];
      var next :=
        if s == "" || s == "." then kept
        else if s == ".." then
          if |kept| > 0 && kept[|kept| - 1] != ".." then kept[..|kept| - 1]
          else if rooted then kept
          else kept + [".."]
        else kept + [s];
      Reduce(next, segs[1..], rooted)
  }

  function JoinSlash(parts: seq<string>): string {
    if parts == [] then ""
    else if |parts| == 1 then parts[0]
    else parts[0] + "/" + JoinSlash(parts[1..])
  }

  /** The shortest lexically equivalent path, as `filepath.Clean` gives on Unix. */
  function Clean(p: string): string {
    if p == "" then "."
    else
      var rooted := p[0] == '/';
      var parts := Reduce([], Split(p), rooted);
      if rooted then "/" + JoinSlash(parts)
      else if parts == [] then "."
      else JoinSlash(parts)
  }

  /** `filepath.Join` of two elements: empty elements are skipped, the rest joined by a slash and cleaned. */
  function Join(a: string, b: string): string {
    if a != "" then Clean(a + "/" + b)
    else if b != "" then Clean(b)
    else ""
  }

  /** `p` up to and including its last slash; empty when `p` has none. */
  function ThroughLastSlash(p: string): string {
    if p == [] then []
    else if p[|p| - 1] == '/' then p
    else ThroughLastSlash(p[..|p| - 1])
  }

  /** `filepath.Dir`: everything before the last element, cleaned. */
  function Dir(p: string): string {
    Clean(ThroughLastSlash(p))
  }

  /** The disk image path the program derives from the VM name. */
  function DiskPath(vmName: string): string {
    Join(IMAGE_DIR, vmName + DISK_SUFFIX)
  }

  lemma {:induction false} SplitNoSlash(a: string)
    requires '/' !in a
    ensures Split(a) == [a]
  {
    if a != [] {
      assert '/' !in a[1..] by {
        forall i | 0 <= i < |a[1..]| ensures a[1..][i] != '/' {
          assert a[1..][i] == a[i + 1];
        }
      }
      SplitNoSlash(a[1..]);
      assert [a[0]] + a[1..] == a;
    }
  }

  lemma {:induction false} SplitAtSlash(a: string, b: string)
    ensures Split(a + "/" + b) == Split(a) + Split(b)
    decreases |a|
  {
    if a == [] {
      assert a + "/" + b == "/" + b;
      assert ("/" + b)[1..] == b;
    } else {
      assert (a + "/" + b)[1..] == a[1..] + "/" + b;
      SplitAtSlash(a[1..], b);
    }
  }

  lemma {:induction false} ThroughLastSlashOfLast(a: string, b: string)
    requires '/' !in b
    ensures ThroughLastSlash(a + "/" + b) == a + "/"
    decreases |b|
  {
    var p := a + "/" + b;
    if b != [] {
      assert p[|p| - 1] == b[|b| - 1];
      assert p[..|p| - 1] == a + "/" + b[..|b| - 1];
      ThroughLastSlashOfLast(a, b[..|b| - 1]);
    } else {
      assert p == a + "/";
    }
  }

  /** A segment that Clean keeps as it is. */
  predicate Plain(s: string) {
    s != "" && s != "." && s != ".." && '/' !in s
  }

  predicate AllPlain(parts: seq<string>) {
    forall i | 0 <= i < |parts| :: Plain(parts[i])
  }

  lemma {:induction false} SplitJoinSlash(parts: seq<string>)
    requires |parts| > 0 && AllPlain(parts)
    ensures Split(JoinSlash(parts)) == parts
  {
    if |parts| == 1 {
      SplitNoSlash(parts[0]);
    } else {
      assert AllPlain(parts[1..]) by {
        forall i | 0 <= i < |parts[1..]| ensures Plain(parts[1..][i]) {
          assert parts[1..][i] == parts[i + 1];
        }
      }
      SplitNoSlash(parts[0]);
      SplitAtSlash(parts[0], JoinSlash(parts[1..]));
      SplitJoinSlash(parts[1..]);
    }
  }

  lemma {:induction false} JoinSlashSnoc(parts: seq<string>, last: string)
    requires |parts| > 0
    ensures JoinSlash(parts + [last]) == JoinSlash(parts) + "/" + last
  {
    if |parts| > 1 {
      assert (parts + [last])[1..] == parts[1..] + [last];
      JoinSlashSnoc(parts[1..], last);
    }
  }

  lemma {:induction false} ReducePlain(kept: seq<string>, parts: seq<string>, rooted: bool)
    requires AllPlain(parts)
    ensures Reduce(kept, parts, rooted) == kept + parts
    decreases |parts|
  {
    if parts != [] {
      assert AllPlain(parts[1..]) by {
        forall i | 0 <= i < |parts[1..]| ensures Plain(parts[1..][i]) {
          assert parts[1..][i] == parts[i + 1];
        }
      }
      assert Plain(parts[0]);
      ReducePlain(kept + [parts[0]], parts[1..], rooted);
      assert kept + [parts[0]] + parts[1..] == kept + parts;
    }
  }

  lemma {:induction false} ReduceConcat(kept: seq<string>, a: seq<string>, b: seq<string>, rooted: bool)
    ensures Reduce(kept, a + b, rooted) == Reduce(Reduce(kept, a, rooted), b, rooted)
    decreases |a|
  {
    if a == [] {
      assert a + b == b;
    } else {
      assert (a + b)[0] == a[0];
      assert (a + b)[1..] == a[1..] + b;
      var s := a[0];
      var next :=
        if s == "" || s == "." then kept
        else if s == ".." then
          if |kept| > 0 && kept[|kept| - 1] != ".." then kept[..|kept| - 1]
          else if rooted then kept
          else kept + [".."]
        else kept + [s];
      ReduceConcat(next, a[1..], b, rooted);
    }
  }

  lemma SplitRooted(j: string)
    ensures Split("/" + j) == [""] + Split(j)
  {
    assert "/" + j == "" + "/" + j;
    SplitAtSlash("", j);
  }

  lemma CleanRooted(p: string)
    requires p != "" && p[0] == '/'
    ensures Clean(p) == "/" + JoinSlash(Reduce([], Split(p), true))
  {
  }

  lemma ReduceRootedPlain(parts: seq<string>, tail: seq<string>)
    requires AllPlain(parts) && (tail == [] || tail == [""])
    ensures Reduce([], [""] + parts + tail, true) == parts
  {
    ReduceConcat([], [""] + parts, tail, true);
    ReduceConcat([], [""], parts, true);
    ReducePlain([], parts, true);
  }

  lemma SplitRootedPlain(parts: seq<string>)
    requires |parts| > 0 && AllPlain(parts)
    ensures Split("/" + JoinSlash(parts)) == [""] + parts
    ensures Split("/" + JoinSlash(parts) + "/") == [""] + parts + [""]
  {
    var j := JoinSlash(parts);
    SplitJoinSlash(parts);
    SplitRooted(j);
    SplitRooted(j + "/");
    assert j + "/" == j + "/" + "";
    SplitAtSlash(j, "");
    assert "/" + j + "/" == "/" + (j + "/");
  }

  /**
   * A rooted path made of plain segments is already clean, and the same path
   * followed by a slash cleans to the path without it.
   */
  lemma CleanRootedPlain(p: string, parts: seq<string>)
    requires |parts| > 0 && AllPlain(parts) && p == "/" + JoinSlash(parts)
    ensures Clean(p) == p
    ensures Clean(p + "/") == p
  {
    SplitRootedPlain(parts);
    CleanRooted(p);
    ReduceRootedPlain(parts, []);
    assert [""] + parts + [] == [""] + parts;
    CleanRooted(p + "/");
    ReduceRootedPlain(parts, [""]);
  }

  const IMAGE_DIR_PARTS: seq<string> := ["var", "lib", "libvirt", "images"]

  lemma ImageDirIsPlain()
    ensures AllPlain(IMAGE_DIR_PARTS)
    ensures IMAGE_DIR == "/" + JoinSlash(IMAGE_DIR_PARTS)
  {
    assert JoinSlash(["images"]) == "images";
    assert JoinSlash(["libvirt", "images"]) == "libvirt/images";
    assert JoinSlash(["lib", "libvirt", "images"]) == "lib/libvirt/images";
  }

  lemma PlainFile(vmName: string)
    requires '/' !in vmName
    ensures Plain(vmName + DISK_SUFFIX)
  {
    var file := vmName + DISK_SUFFIX;
    forall i | 0 <= i < |file| ensures file[i] != '/' {
      if i < |vmName| { assert file[i] == vmName[i]; } else { assert file[i] == DISK_SUFFIX[i - |vmName|]; }
    }
    assert |file| >= 6;
  }

  lemma PlainUnderImageDir(file: string)
    requires Plain(file)
    ensures Clean(IMAGE_DIR + "/" + file) == IMAGE_DIR + "/" + file
  {
    ImageDirIsPlain();
    var parts := IMAGE_DIR_PARTS + [file];
    assert AllPlain(parts) by {
      forall i | 0 <= i < |parts| ensures Plain(parts[i]) {
        if i < |IMAGE_DIR_PARTS| { assert parts[i] == IMAGE_DIR_PARTS[i]; }
      }
    }
    JoinSlashSnoc(IMAGE_DIR_PARTS, file);
    CleanRootedPlain(IMAGE_DIR + "/" + file, parts);
  }

  lemma ImageDirIsClean()
    ensures Clean(IMAGE_DIR + "/") == IMAGE_DIR
  {
    ImageDirIsPlain();
    CleanRootedPlain(IMAGE_DIR, IMAGE_DIR_PARTS);
  }

  /**
   * For a VM name without a slash, the disk path is the image directory, a slash,
   * the name and ".qcow2", and the directory the guard inspects is the image
   * directory itself.
   */
  lemma DiskPathOfPlainName(vmName: string)
    requires '/' !in vmName
    ensures DiskPath(vmName) == IMAGE_DIR + "/" + vmName + DISK_SUFFIX
    ensures Dir(DiskPath(vmName)) == IMAGE_DIR
  {
    var file := vmName + DISK_SUFFIX;
    var path := IMAGE_DIR + "/" + file;
    assert DiskPath(vmName) == Clean(path);
    PlainFile(vmName);
    PlainUnderImageDir(file);
    assert path == IMAGE_DIR + "/" + vmName + DISK_SUFFIX;
    ThroughLastSlashOfLast(IMAGE_DIR, file);
    assert Dir(path) == Clean(IMAGE_DIR + "/");
    ImageDirIsClean();
  }

  const PARENT_DIR: string := "/var/lib/libvirt"

  lemma ParentDirIsPlain()
    ensures AllPlain(IMAGE_DIR_PARTS[..3])
    ensures PARENT_DIR == "/" + JoinSlash(IMAGE_DIR_PARTS[..3])
  {
    assert IMAGE_DIR_PARTS[..3] == ["var", "lib", "libvirt"];
    assert JoinSlash(["libvirt"]) == "libvirt";
    assert JoinSlash(["lib", "libvirt"]) == "lib/libvirt";
  }

  lemma SplitClimbingPath(dir: string, parts: seq<string>, file: string)
    requires |parts| > 0 && AllPlain(parts) && dir == "/" + JoinSlash(parts)
    requires Plain(file)
    ensures Split(dir + "/" + ("../" + file)) == [""] + parts + ["..", file]
  {
    SplitRootedPlain(parts);
    assert "../" + file == ".." + "/" + file;
    SplitAtSlash("..", file);
    SplitNoSlash("..");
    SplitNoSlash(file);
    SplitAtSlash(dir, "../" + file);
  }

  lemma ReduceClimb(parts: seq<string>, file: string)
    requires |parts| > 0 && AllPlain(parts) && Plain(file)
    ensures Reduce([], [""] + parts + ["..", file], true) == parts[..|parts| - 1] + [file]
  {
    ReduceConcat([], [""] + parts, ["..", file], true);
    ReduceRootedPlain(parts, []);
    assert [""] + parts + [] == [""] + parts;
    var n := |parts|;
    assert Plain(parts[n - 1]);
    assert parts[n - 1] != "..";
    assert Reduce(parts, ["..", file], true) == Reduce(parts[..n - 1], [file], true);
    assert Reduce(parts[..n - 1], [file], true) == Reduce(parts[..n - 1] + [file], [], true);
  }

  /** Clean of a plain rooted directory, a slash, ".." and a plain file: the file moves up one level. */
  lemma CleanClimb(dir: string, parts: seq<string>, file: string)
    requires |parts| > 0 && AllPlain(parts) && dir == "/" + JoinSlash(parts)
    requires Plain(file)
    ensures Clean(dir + "/" + ("../" + file)) == "/" + JoinSlash(parts[..|parts| - 1] + [file])
  {
    var path := dir + "/" + ("../" + file);
    SplitClimbingPath(dir, parts, file);
    CleanRooted(path);
    ReduceClimb(parts, file);
  }

  lemma ParentDirIsClean()
    ensures Clean(PARENT_DIR + "/") == PARENT_DIR
  {
    ParentDirIsPlain();
    CleanRootedPlain(PARENT_DIR, IMAGE_DIR_PARTS[..3]);
  }

  lemma ClimbingPath(rest: string)
    requires '/' !in rest
    ensures DiskPath("../" + rest) == PARENT_DIR + "/" + rest + DISK_SUFFIX
  {
    var file := rest + DISK_SUFFIX;
    PlainFile(rest);
    assert ("../" + rest) + DISK_SUFFIX == "../" + file;
    var path := IMAGE_DIR + "/" + ("../" + file);
    assert DiskPath("../" + rest) == Clean(path);
    ImageDirIsPlain();
    ParentDirIsPlain();
    CleanClimb(IMAGE_DIR, IMAGE_DIR_PARTS, file);
    JoinSlashSnoc(IMAGE_DIR_PARTS[..3], file);
  }

  /**
   * The name is not checked for slashes: a name that starts with "../" puts the
   * disk image in the parent of the image directory, and the directory guard
   * then inspects that parent.
   */
  lemma DiskPathOfClimbingName(rest: string)
    requires '/' !in rest
    ensures DiskPath("../" + rest) == PARENT_DIR + "/" + rest + DISK_SUFFIX
    ensures Dir(DiskPath("../" + rest)) == PARENT_DIR
  {
    ClimbingPath(rest);
    var file := rest + DISK_SUFFIX;
    PlainFile(rest);
    assert PARENT_DIR + "/" + rest + DISK_SUFFIX == PARENT_DIR + "/" + file;
    ThroughLastSlashOfLast(PARENT_DIR, file);
    ParentDirIsClean();
  }
}
