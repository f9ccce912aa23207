/**
 * File names for the images of a notice (`download_images_from_notice` in
 * `src/developing/html_parse_img.py`): the last segment of the URL path, or
 * `image_NNN` with an extension taken from the content type when that segment has no
 * dot, and a numbered variant `stem_k.ext` when the file already exists. The directory's
 * files are a set that each saved image adds to. Finding the image URLs in the page and
 * the HTTP requests are not part of this model; each URL's outcome is passed in.
 */
module ImageNames {
  import opened Wrappers
  import opened Text
  import opened Crawler

  // ---------------------------------------------------------------- the name in the URL

  /** `urlparse(url).path` with any `;params` still attached: what follows the scheme and
      the authority, up to the query or the fragment. */
  function PathWithParams(url: string): (r: string)
    ensures '?' !in r && '#' !in r
  {
    var beforeFragment := BeforeFirst(AfterHost(url), "#");
    var r := BeforeFirst(beforeFragment, "?");
    NoCharLeft(beforeFragment, '#', r);
    NoCharLeft(r, '?', r);
    r
  }

  /** What follows the scheme and the `//authority` part, if there is one. */
  function AfterHost(url: string): string {
    var rest := AfterScheme(RemoveUnsafe(TrimControls(url)));
    if |rest| >= 2 && rest[..2] == "//" then rest[2 + |Authority(rest[2..])|..] else rest
  }

  /** A prefix of text without `c` has no `c`; a text with no occurrence of `[c]` has no `c`. */
  lemma NoCharLeft(s: string, c: char, r: string)
    requires Find(s, [c]).None? && StartsWith(s, r)
    ensures c !in s && c !in r
  {
    if c in s {
      var i := IndexOf(s, c);
      assert s[i..i + 1] == [c];
      assert OccursAt(s, [c], i);
    }
    forall i | 0 <= i < |r| ensures r[i] != c {
      assert r[i] == s[i];
    }
  }

  /** `os.path.basename(urlparse(url).path)`: the last segment, without the parameters
      `urlparse` splits off it. */
  function BaseName(url: string): (r: string)
    ensures '/' !in r && ';' !in r
  {
    var last := AfterLast(PathWithParams(url), "/");
    var r := BeforeFirst(last, ";");
    NoCharLeft(last, '/', r);
    NoCharLeft(r, ';', r);
    r
  }

  // ---------------------------------------------------------------- the fallback name

  /** The extension the content type suggests, in the order the source tests them;
      `.jpg` when nothing matches. */
  function Extension(contentType: string): (r: string)
    ensures r in {".jpg", ".png", ".gif", ".webp"}
    ensures Contains(contentType, "jpeg") || Contains(contentType, "jpg") ==> r == ".jpg"
    ensures r == ".png" <==> !Contains(contentType, "jpeg") && !Contains(contentType, "jpg") && Contains(contentType, "png")
    ensures r == ".webp" ==> Contains(contentType, "webp") && !Contains(contentType, "gif")
  {
    if Contains(contentType, "jpeg") || Contains(contentType, "jpg") then ".jpg"
    else if Contains(contentType, "png") then ".png"
    else if Contains(contentType, "gif") then ".gif"
    else if Contains(contentType, "webp") then ".webp"
    else ".jpg"
  }

  /** Every extension is a dot and letters. */
  lemma ExtensionShape(contentType: string)
    ensures var e := Extension(contentType);
      |e| >= 2 && e[0] == '.' && '/' !in e && ';' !in e && '.' !in e[1..]
  {
  }

  /** Zero-padded digits hold no dot, slash or semicolon. */
  lemma DigitsPlain(digits: string)
    requires AllDigits(digits)
    ensures '.' !in digits && '/' !in digits && ';' !in digits
  {
    forall k | 0 <= k < |digits| ensures digits[k] != '.' && digits[k] != '/' && digits[k] != ';' {
      assert IsDigit(digits[k]);
    }
  }

  /** `f"image_{i+1:03d}{ext}"`. */
  function FallbackName(i: nat, contentType: string): (r: string)
    ensures StartsWith(r, "image_") && '.' in r && '/' !in r && ';' !in r
  {
    var digits := PadNat(i + 1, 3);
    var ext := Extension(contentType);
    ExtensionShape(contentType);
    DigitsPlain(digits);
    var r := "image_" + digits + ext;
    assert r[|r| - |ext|] == '.';
    r
  }

  /** Images at different positions get different fallback names. */
  lemma FallbackNamesDiffer(i: nat, j: nat, typeI: string, typeJ: string)
    requires i != j
    ensures FallbackName(i, typeI) != FallbackName(j, typeJ)
  {
    var a, b := PadNat(i + 1, 3), PadNat(j + 1, 3);
    var x, y := Extension(typeI), Extension(typeJ);
    ExtensionShape(typeI);
    ExtensionShape(typeJ);
    DigitsPlain(a);
    DigitsPlain(b);
    assert FallbackName(i, typeI) == "image_" + (a + x);
    assert FallbackName(j, typeJ) == "image_" + (b + y);
    if a + x == b + y {
      BeforeDot(a, x, b, y);
    }
  }

  /** Two texts without a dot, each followed by something that starts with a dot, are
      equal when the concatenations are. */
  lemma BeforeDot(a: string, x: string, b: string, y: string)
    requires '.' !in a && '.' !in b && x != [] && x[0] == '.' && y != [] && y[0] == '.'
    requires a + x == b + y
    ensures a == b
  {
    assert (a + x)[|a|] == '.';
    assert (b + y)[|b|] == '.';
    assert a == (a + x)[..|a|];
    assert b == (b + y)[..|b|];
  }

  /** The name the image is saved under before collisions are handled: the URL's last
      segment when it has a dot, otherwise the fallback. */
  function FileName(url: string, i: nat, contentType: string): (r: string)
    ensures r != [] && '.' in r && '/' !in r
    ensures var b := BaseName(url); (b != [] && '.' in b) ==> r == b
    ensures var b := BaseName(url); (b == [] || '.' !in b) ==> r == FallbackName(i, contentType)
  {
    var b := BaseName(url);
    if b == [] || '.' !in b then FallbackName(i, contentType) else b
  }

  // ---------------------------------------------------------------- stem and suffix

  /** The index `PurePath.suffix` splits at: the last dot, unless it starts or ends the name. */
  function SuffixStart(name: string): (i: nat)
    ensures i <= |name|
  {
    if '.' in name && 0 < LastIndexOf(name, '.') < |name| - 1 then LastIndexOf(name, '.') else |name|
  }

  /** `PurePath.stem`. */
  function Stem(name: string): string {
    name[..SuffixStart(name)]
  }

  /** `PurePath.suffix`. */
  function Suffix(name: string): string {
    name[SuffixStart(name)..]
  }

  /** The stem and the suffix put back together give the name; the suffix is empty or a
      dot followed by at least one character that is not a dot. */
  lemma StemSuffix(name: string)
    ensures Stem(name) + Suffix(name) == name
    ensures Suffix(name) == [] || (|Suffix(name)| >= 2 && Suffix(name)[0] == '.' && '.' !in Suffix(name)[1..])
  {
    assert name == name[..SuffixStart(name)] + name[SuffixStart(name)..];
  }

  // ---------------------------------------------------------------- collisions

  /** `save_path / f"{original_stem}_{counter}{original_suffix}"`. */
  function Numbered(dir: string, name: string, k: nat): string {
    dir + "/" + Stem(name) + "_" + NatToString(k) + Suffix(name)
  }

  /** Numbered variants differ from each other and from the name itself. */
  lemma {:induction false} NumberedDiffer(dir: string, name: string, j: nat, k: nat)
    ensures Numbered(dir, name, k) != dir + "/" + name
    ensures j != k ==> Numbered(dir, name, j) != Numbered(dir, name, k)
  {
    StemSuffix(name);
    var head := dir + "/" + Stem(name) + "_";
    var sj, sk := NatToString(j), NatToString(k);
    assert |Numbered(dir, name, k)| == |dir| + 1 + |name| + 1 + |sk|;
    if j != k && |sj| == |sk| {
      var u, v := head + sj + Suffix(name), head + sk + Suffix(name);
      assert u[|head|..|head| + |sj|] == sj;
      assert v[|head|..|head| + |sk|] == sk;
      if sj == sk {
        NatToStringInjective(j, k);
      }
    }
  }

  /**
   * The collision loop over any list of candidate paths that are all different: the
   * number of the first candidate that does not exist. It ends because the directory
   * holds finitely many files and each candidate tested is a new one of them.
   */
  method FirstFree(files: set<string>, cand: nat -> string) returns (k: nat)
    requires forall i, j :: 0 <= i < j ==> cand(i) != cand(j)
    ensures cand(k) !in files
    ensures forall j :: 0 <= j < k ==> cand(j) in files
  {
    k := 0;
    ghost var seen: set<string> := {};
    while cand(k) in files
      invariant seen <= files && |seen| == k
      invariant forall j :: 0 <= j < k ==> cand(j) in seen
      invariant forall p :: p in seen ==> exists j :: 0 <= j < k && p == cand(j)
      decreases |files| - |seen|
    {
      assert cand(k) !in seen by {
        forall p | p in seen ensures p != cand(k) {
          var j :| 0 <= j < k && p == cand(j);
        }
      }
      SubsetSize(seen + {cand(k)}, files);
      seen := seen + {cand(k)};
      k := k + 1;
    }
  }

  /**
   * The collision loop: the name itself when no such file exists, otherwise the first
   * numbered variant that does not exist. `tries` is 0 for the name itself and `k` for
   * `stem_k.ext`.
   */
  method FreePath(files: set<string>, dir: string, name: string) returns (path: string, tries: nat)
    ensures path !in files
    ensures tries == 0 ==> path == dir + "/" + name
    ensures tries > 0 ==> path == Numbered(dir, name, tries) && dir + "/" + name in files
    ensures forall j :: 1 <= j < tries ==> Numbered(dir, name, j) in files
    ensures NamedAfter(path, dir, name)
    ensures path == Candidate(dir, name, tries)
    ensures forall j :: 0 <= j < tries ==> Candidate(dir, name, j) in files
  {
    var cand := (k: nat) => Candidate(dir, name, k);
    forall i: nat, j: nat | i < j ensures cand(i) != cand(j) {
      CandidatesDiffer(dir, name, i, j);
    }
    tries := FirstFree(files, cand);
    path := cand(tries);
    forall j | 1 <= j < tries ensures Numbered(dir, name, j) in files {
      assert cand(j) in files;
    }
    if tries > 0 {
      assert cand(0) in files;
      assert path == Numbered(dir, name, tries);
    }
  }

  /** The path the loop tests after `k` collisions. */
  function Candidate(dir: string, name: string, k: nat): string {
    if k == 0 then dir + "/" + name else Numbered(dir, name, k)
  }

  lemma CandidatesDiffer(dir: string, name: string, j: nat, k: nat)
    requires j < k
    ensures Candidate(dir, name, j) != Candidate(dir, name, k)
  {
    NumberedDiffer(dir, name, j, k);
  }

  /** The path is the name in the directory, or one of its numbered variants. */
  ghost predicate NamedAfter(path: string, dir: string, name: string) {
    path == dir + "/" + name || exists t: nat :: t >= 1 && path == Numbered(dir, name, t)
  }

  lemma SubsetSize(a: set<string>, b: set<string>)
    requires a <= b
    ensures |a| <= |b|
  {
    assert b == a + (b - a);
  }

  // ---------------------------------------------------------------- the download loop

  /** What happened to one image: whether the request answered without raising, the
      response's content type (`""` without the header), and whether the file was written. */
  datatype Download = Download(answered: bool, contentType: string, stored: bool)

  predicate Saved(d: Download) {
    d.answered && d.stored
  }

  /** The directory the images go to, and the paths that exist in it. */
  class SaveDirectory {
    const dir: string
    var files: set<string>

    constructor(directory: string, existing: set<string>)
      ensures dir == directory && files == existing
    {
      dir := directory;
      files := existing;
    }

    /** Writes one image under the first free candidate of its name. */
    method SaveImage(name: string) returns (path: string, ghost t: nat)
      modifies this
      ensures path !in old(files) && files == old(files) + {path}
      ensures path == Candidate(dir, name, t)
      ensures forall j :: 0 <= j < t ==> Candidate(dir, name, j) in old(files)
    {
      path, t := FreePath(files, dir, name);
      files := files + {path};
    }

    /**
     * `download_images_from_notice` after the URLs are known. `outcomes[n]` is the outcome
     * of the request sent for position `n` and of saving its image: each position gets its
     * own request, so a URL listed twice can succeed once and fail once. The saved paths are new and pairwise
     * different, one per image that was saved, in URL order (`from` holds each one's
     * position in `urls`), and the directory gains exactly them.
     */
    method DownloadImages(urls: seq<string>, outcomes: seq<Download>)
      returns (saved: seq<string>, ghost from: seq<nat>, ghost tries: seq<nat>)
      requires |outcomes| == |urls|
      modifies this
      ensures Stored(saved, from, old(files), files, urls, outcomes, dir, |urls|)
      ensures FirstFreeEach(saved, from, tries, old(files), ImageName(urls, outcomes), dir)
    {
      saved := [];
      from := [];
      tries := [];
      var i: nat := 0;
      while i < |urls|
        invariant i <= |urls|
        invariant Stored(saved, from, old(files), files, urls, outcomes, dir, i)
        invariant FirstFreeEach(saved, from, tries, old(files), ImageName(urls, outcomes), dir)
      {
        var outcome := outcomes[i];
        if Saved(outcome) {
          var name := FileName(urls[i], i, outcome.contentType);
          assert name == ImageName(urls, outcomes)(i);
          ghost var filesBefore := files;
          var path, t := SaveImage(name);
          SavedStep(saved, from, tries, old(files), filesBefore, urls, outcomes, dir, i, path, t);
          saved := saved + [path];
          from := from + [i];
          tries := tries + [t];
        } else {
          StoredSkip(saved, from, old(files), files, urls, outcomes, dir, i);
        }
        i := i + 1;
      }
    }
  }

  /**
   * What the loop has done after the first `n` images: the directory holds the files it
   * held before and the saved paths; the saved paths are new and pairwise different; `from`
   * lists, in increasing order, exactly the positions before `n` whose image was saved;
   * and each saved path is named after the image at its position.
   */
  ghost predicate Stored(saved: seq<string>, from: seq<nat>, before: set<string>, files: set<string>,
                         urls: seq<string>, outcomes: seq<Download>, dir: string, n: nat) {
    && (forall p :: p in files <==> p in before || p in saved)
    && (forall k :: 0 <= k < |saved| ==> saved[k] !in before)
    && (forall j, k :: 0 <= j < k < |saved| ==> saved[j] != saved[k])
    && Positions(from, urls, outcomes, n)
    && AllNamed(saved, from, ImageName(urls, outcomes), dir)
  }

  lemma StoredStep(saved: seq<string>, from: seq<nat>, before: set<string>, files: set<string>,
                   urls: seq<string>, outcomes: seq<Download>, dir: string, n: nat, path: string)
    requires Stored(saved, from, before, files, urls, outcomes, dir, n) && n < |urls|
    requires Saved(outcomes[n]) && path !in files
    requires NamedAfter(path, dir, ImageName(urls, outcomes)(n))
    ensures Stored(saved + [path], from + [n], before, files + {path}, urls, outcomes, dir, n + 1)
  {
    PositionsStep(from, urls, outcomes, n);
    AllNamedStep(saved, from, ImageName(urls, outcomes), dir, path, n);
    var s := saved + [path];
    forall k | 0 <= k < |s| ensures s[k] !in before {
      if k < |saved| {
        assert s[k] == saved[k];
      }
    }
    forall j, k | 0 <= j < k < |s| ensures s[j] != s[k] {
      assert s[j] == saved[j];
      if k < |saved| {
        assert s[k] == saved[k];
      }
    }
  }

  lemma StoredSkip(saved: seq<string>, from: seq<nat>, before: set<string>, files: set<string>,
                   urls: seq<string>, outcomes: seq<Download>, dir: string, n: nat)
    requires Stored(saved, from, before, files, urls, outcomes, dir, n) && n < |urls|
    requires !Saved(outcomes[n])
    ensures Stored(saved, from, before, files, urls, outcomes, dir, n + 1)
  {
    PositionsStep(from, urls, outcomes, n);
  }

  /**
   * Each saved path is the first candidate of its image's name that did not exist when
   * it was chosen: `tries[k]` counts the collisions, and every earlier candidate was
   * already a file, from before or saved for an earlier image.
   */
  ghost predicate FirstFreeEach(saved: seq<string>, from: seq<nat>, tries: seq<nat>, before: set<string>,
                                nameOf: nat -> string, dir: string) {
    && |tries| == |saved| == |from|
    && forall k :: 0 <= k < |saved| ==> Picked(saved[k], dir, nameOf(from[k]), tries[k], before, saved[..k])
  }

  /** `path` is candidate `t` of `name`, and every earlier candidate was taken. */
  ghost predicate Picked(path: string, dir: string, name: string, t: nat, before: set<string>, earlier: seq<string>) {
    && path == Candidate(dir, name, t)
    && forall j :: 0 <= j < t ==> Candidate(dir, name, j) in before || Candidate(dir, name, j) in earlier
  }

  /** The loop's step over an image that was saved under the first free candidate. */
  lemma SavedStep(saved: seq<string>, from: seq<nat>, tries: seq<nat>, before: set<string>, files: set<string>,
                  urls: seq<string>, outcomes: seq<Download>, dir: string, n: nat, path: string, t: nat)
    requires Stored(saved, from, before, files, urls, outcomes, dir, n) && n < |urls|
    requires FirstFreeEach(saved, from, tries, before, ImageName(urls, outcomes), dir)
    requires Saved(outcomes[n]) && path !in files
    requires path == Candidate(dir, ImageName(urls, outcomes)(n), t)
    requires forall j :: 0 <= j < t ==> Candidate(dir, ImageName(urls, outcomes)(n), j) in files
    ensures Stored(saved + [path], from + [n], before, files + {path}, urls, outcomes, dir, n + 1)
    ensures FirstFreeEach(saved + [path], from + [n], tries + [t], before, ImageName(urls, outcomes), dir)
  {
    if t >= 1 {
      assert NamedAfter(path, dir, ImageName(urls, outcomes)(n));
    }
    StoredStep(saved, from, before, files, urls, outcomes, dir, n, path);
    FirstFreeStep(saved, from, tries, before, files, ImageName(urls, outcomes), dir, path, n, t);
  }

  lemma FirstFreeStep(saved: seq<string>, from: seq<nat>, tries: seq<nat>, before: set<string>, files: set<string>,
                      nameOf: nat -> string, dir: string, path: string, n: nat, t: nat)
    requires FirstFreeEach(saved, from, tries, before, nameOf, dir)
    requires forall p :: p in files <==> p in before || p in saved
    requires path == Candidate(dir, nameOf(n), t)
    requires forall j :: 0 <= j < t ==> Candidate(dir, nameOf(n), j) in files
    ensures FirstFreeEach(saved + [path], from + [n], tries + [t], before, nameOf, dir)
  {
    var s, f, ts := saved + [path], from + [n], tries + [t];
    forall k | 0 <= k < |s| ensures Picked(s[k], dir, nameOf(f[k]), ts[k], before, s[..k]) {
      if k < |saved| {
        assert s[k] == saved[k] && f[k] == from[k] && ts[k] == tries[k] && s[..k] == saved[..k];
      } else {
        assert s[..k] == saved;
      }
    }
  }

  /** Each saved path is named after the image at its position. */
  ghost predicate AllNamed(saved: seq<string>, from: seq<nat>, nameOf: nat -> string, dir: string) {
    && |from| == |saved|
    && forall k :: 0 <= k < |saved| ==> NamedAfter(saved[k], dir, nameOf(from[k]))
  }

  /** The name chosen for the image at each position. */
  function ImageName(urls: seq<string>, outcomes: seq<Download>): nat -> string {
    (n: nat) => if n < |urls| && n < |outcomes| then FileName(urls[n], n, outcomes[n].contentType) else ""
  }

  lemma AllNamedStep(saved: seq<string>, from: seq<nat>, nameOf: nat -> string, dir: string, path: string, n: nat)
    requires AllNamed(saved, from, nameOf, dir)
    requires NamedAfter(path, dir, nameOf(n))
    ensures AllNamed(saved + [path], from + [n], nameOf, dir)
  {
    var s, f := saved + [path], from + [n];
    forall k | 0 <= k < |s| ensures NamedAfter(s[k], dir, nameOf(f[k])) {
      if k < |saved| {
        assert s[k] == saved[k] && f[k] == from[k];
      }
    }
  }

  /** `from` lists, in increasing order, exactly the positions before `n` whose image was
      saved. */
  ghost predicate Positions(from: seq<nat>, urls: seq<string>, outcomes: seq<Download>, n: nat) {
    && n <= |urls| == |outcomes|
    && (forall j, k :: 0 <= j < k < |from| ==> from[j] < from[k])
    && (forall k :: 0 <= k < |from| ==> from[k] < n && Saved(outcomes[from[k]]))
    && (forall i :: 0 <= i < n && Saved(outcomes[i]) ==> i in from)
  }

  lemma PositionsStep(from: seq<nat>, urls: seq<string>, outcomes: seq<Download>, n: nat)
    requires Positions(from, urls, outcomes, n) && n < |urls|
    ensures Saved(outcomes[n]) ==> Positions(from + [n], urls, outcomes, n + 1)
    ensures !Saved(outcomes[n]) ==> Positions(from, urls, outcomes, n + 1)
  {
    if Saved(outcomes[n]) {
      var next := from + [n];
      forall i | 0 <= i < n + 1 && Saved(outcomes[i]) ensures i in next {
        if i < n {
          var k :| 0 <= k < |from| && from[k] == i;
          assert next[k] == i;
        } else {
          assert next[|from|] == n;
        }
      }
    }
  }
}
