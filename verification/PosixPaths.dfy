/**
 The path functions shared by the plan builder and the provisioner daemon: `path.posix.join` with its
 normalisation, and the two identical wrappers `joinPosix` (src/lib/super-admin.ts) and `pathJoinPosix`
 (ops/mc-provisioner-daemon.js) that first strip trailing slashes from every part.
 */
module PosixPaths {

  /******* Splitting and gluing *******/

  /** The parts of `[c] + s`, given the parts of `s`. */
  function Prepend(c: char, parts: seq<string>, sep: char): (r: seq<string>)
    requires parts != []
    ensures r != []
  {
    if c == sep then [""] + parts else [[c] + parts[0]] + parts[1..]
  }

  /** String.prototype.split with a one-character separator. */
  function Split(s: string, sep: char): (parts: seq<string>)
    ensures parts != []
    ensures forall k | 0 <= k < |parts| :: sep !in parts[k]
  {
    if s == "" then [""] else Prepend(s[0], Split(s[1..], sep), sep)
  }

  /** Array.prototype.join with a one-character separator. */
  function Glue(parts: seq<string>, sep: char): string
  {
    if parts == [] then ""
    else if |parts| == 1 then parts[0]
    else parts[0] + [sep] + Glue(parts[1..], sep)
  }

  lemma PrependAppend(c: char, left: seq<string>, right: seq<string>, sep: char)
    requires left != []
    ensures Prepend(c, left + right, sep) == Prepend(c, left, sep) + right
  {
  }

  lemma {:induction false} SplitAppend(a: string, b: string, sep: char)
    ensures Split(a + [sep] + b, sep) == Split(a, sep) + Split(b, sep)
  {
    var whole := a + [sep] + b;
    if a == "" {
      assert whole[1..] == b;
    } else {
      assert whole[1..] == a[1..] + [sep] + b;
      SplitAppend(a[1..], b, sep);
      PrependAppend(a[0], Split(a[1..], sep), Split(b, sep), sep);
    }
  }

  lemma {:induction false} SplitWithout(s: string, sep: char)
    requires sep !in s
    ensures Split(s, sep) == [s]
  {
    if s != "" {
      SplitWithout(s[1..], sep);
      assert [s[0]] + s[1..] == s;
    }
  }

  /** Splitting undoes gluing. */
  lemma {:induction false} SplitGlue(parts: seq<string>, sep: char)
    requires parts != []
    requires forall k | 0 <= k < |parts| :: sep !in parts[k]
    ensures Split(Glue(parts, sep), sep) == parts
  {
    SplitWithout(parts[0], sep);
    if |parts| > 1 {
      SplitGlue(parts[1..], sep);
      SplitAppend(parts[0], Glue(parts[1..], sep), sep);
    }
  }

  lemma {:induction false} GlueAppend(a: seq<string>, b: seq<string>, sep: char)
    requires a != [] && b != []
    ensures Glue(a + b, sep) == Glue(a, sep) + [sep] + Glue(b, sep)
  {
    if |a| == 1 {
      assert (a + b)[1..] == b;
    } else {
      GlueAppend(a[1..], b, sep);
      assert (a + b)[1..] == a[1..] + b;
    }
  }

  /******* Normalisation *******/

  /** A segment that normalisation leaves alone. */
  predicate Plain(segment: string)
  {
    segment != "" && segment != "." && segment != ".." && '/' !in segment
  }

  predicate AllPlain(segments: seq<string>)
  {
    forall k | 0 <= k < |segments| :: Plain(segments[k])
  }

  /** One segment of path.posix.normalize applied to the segments kept so far. */
  function ResolveOne(absolute: bool, kept: seq<string>, segment: string): seq<string>
  {
    if segment == "" || segment == "." then kept
    else if segment == ".." then
      if kept != [] && kept[|kept| - 1] != ".." then kept[..|kept| - 1]
      else if absolute then kept
      else kept + [".."]
    else kept + [segment]
  }

  function Resolve(absolute: bool, segments: seq<string>): seq<string>
  {
    if segments == [] then []
    else ResolveOne(absolute, Resolve(absolute, segments[..|segments| - 1]), segments[|segments| - 1])
  }

  function Render(absolute: bool, segments: seq<string>): string
  {
    if segments == [] then (if absolute then "/" else ".")
    else (if absolute then "/" else "") + Glue(segments, '/')
  }

  predicate IsAbsolute(p: string) { p != "" && p[0] == '/' }

  /** path.posix.normalize. */
  function Normalize(p: string): string
  {
    if p == "" then "."
    else
      var segments := Resolve(IsAbsolute(p), Split(p, '/'));
      if p[|p| - 1] != '/' then Render(IsAbsolute(p), segments)
      else if segments == [] then (if IsAbsolute(p) then "/" else "./")
      else Render(IsAbsolute(p), segments) + "/"
  }

  function NonEmpty(parts: seq<string>): seq<string>
  {
    if parts == [] then []
    else (if parts[0] == "" then [] else [parts[0]]) + NonEmpty(parts[1..])
  }

  /** path.posix.join (and path.join, on a posix host). */
  function Join(parts: seq<string>): string
  {
    Normalize(Glue(NonEmpty(parts), '/'))
  }

  /** replace(/\/+$/g, ''). */
  function StripSlashes(p: string): (s: string)
    ensures s == "" || s[|s| - 1] != '/'
    ensures p != "" && p[|p| - 1] != '/' ==> s == p
  {
    if p != "" && p[|p| - 1] == '/' then StripSlashes(p[..|p| - 1]) else p
  }

  function StripAll(parts: seq<string>): (r: seq<string>)
    ensures |r| == |parts|
  {
    seq(|parts|, k requires 0 <= k < |parts| => StripSlashes(parts[k]))
  }

  function JoinPosix(parts: seq<string>): string
  {
    Join(StripAll(parts))
  }

  /******* Joining plain segments *******/

  lemma {:induction false} ResolvePlain(absolute: bool, segments: seq<string>, plain: seq<string>)
    requires AllPlain(plain)
    ensures Resolve(absolute, segments + plain) == Resolve(absolute, segments) + plain
    decreases |plain|
  {
    if plain == [] {
      assert segments + plain == segments;
    } else {
      var init, last := plain[..|plain| - 1], plain[|plain| - 1];
      assert (segments + plain)[..|segments + plain| - 1] == segments + init;
      ResolvePlain(absolute, segments, init);
      assert plain == init + [last];
    }
  }

  lemma {:induction false} ResolvedSegments(absolute: bool, segments: seq<string>)
    requires forall k | 0 <= k < |segments| :: '/' !in segments[k]
    ensures forall k | 0 <= k < |Resolve(absolute, segments)| ::
      '/' !in Resolve(absolute, segments)[k] && Resolve(absolute, segments)[k] != ""
        && Resolve(absolute, segments)[k] != "."
  {
    if segments != [] {
      ResolvedSegments(absolute, segments[..|segments| - 1]);
    }
  }

  lemma {:induction false} GlueEndsPlain(plain: seq<string>)
    requires plain != [] && AllPlain(plain)
    ensures Glue(plain, '/') != "" && Glue(plain, '/')[|Glue(plain, '/')| - 1] != '/'
    ensures Glue(plain, '/')[0] != '/'
  {
    if |plain| > 1 {
      assert Plain(plain[0]);
      GlueEndsPlain(plain[1..]);
    } else {
      assert Plain(plain[0]);
    }
  }

  /** Normalising `base/plain` resolves `base` and keeps the plain segments. */
  lemma NormalizeUnder(base: string, plain: seq<string>)
    requires base != "" && plain != [] && AllPlain(plain)
    ensures Normalize(base + "/" + Glue(plain, '/')) ==
      Render(IsAbsolute(base), Resolve(IsAbsolute(base), Split(base, '/')) + plain)
  {
    GlueEndsPlain(plain);
    SplitAppend(base, Glue(plain, '/'), '/');
    SplitGlue(plain, '/');
    ResolvePlain(IsAbsolute(base), Split(base, '/'), plain);
  }

  lemma NormalizePlain(plain: seq<string>)
    requires plain != [] && AllPlain(plain)
    ensures Normalize(Glue(plain, '/')) == Render(false, plain)
  {
    GlueEndsPlain(plain);
    SplitGlue(plain, '/');
    ResolvePlain(false, [], plain);
    assert [] + plain == plain;
  }

  /** The resolved segments of a base directory, after stripping its trailing slashes. */
  function BaseSegments(base: string): seq<string>
  {
    if StripSlashes(base) == "" then [] else Resolve(IsAbsolute(StripSlashes(base)), Split(StripSlashes(base), '/'))
  }

  lemma {:induction false} NonEmptyAll(parts: seq<string>)
    requires forall k | 0 <= k < |parts| :: parts[k] != ""
    ensures NonEmpty(parts) == parts
  {
    if parts != [] {
      NonEmptyAll(parts[1..]);
      assert parts == [parts[0]] + parts[1..];
    }
  }

  lemma JoinBase(base: string)
    ensures JoinPosix([base]) == Render(IsAbsolute(StripSlashes(base)), BaseSegments(base))
  {
    var b := StripSlashes(base);
    assert StripAll([base]) == [b];
    assert NonEmpty([b]) == (if b == "" then [] else [b]) + NonEmpty([b][1..]);
    assert NonEmpty([b][1..]) == [];
  }

  lemma {:induction false} GlueSplit(s: string, sep: char)
    ensures Glue(Split(s, sep), sep) == s
  {
    if s != "" {
      var rest := Split(s[1..], sep);
      GlueSplit(s[1..], sep);
      if s[0] == sep {
        assert ([""] + rest)[1..] == rest;
        assert s == "" + [sep] + s[1..];
      } else {
        assert ([[s[0]] + rest[0]] + rest[1..])[1..] == rest[1..];
        assert s == [s[0]] + s[1..];
      }
    }
  }

  /** path.join of a base directory and parts that spell plain segments. */
  lemma JoinParts(base: string, parts: seq<string>, plain: seq<string>)
    requires parts != [] && forall k | 0 <= k < |parts| :: parts[k] != ""
    requires plain != [] && AllPlain(plain)
    requires Glue(parts, '/') == Glue(plain, '/')
    ensures Join([base] + parts) ==
      Render(IsAbsolute(base), (if base == "" then [] else Resolve(IsAbsolute(base), Split(base, '/'))) + plain)
  {
    NonEmptyAll(parts);
    assert ([base] + parts)[1..] == parts;
    if base == "" {
      assert NonEmpty([base] + parts) == parts;
      NormalizePlain(plain);
      assert [] + plain == plain;
    } else {
      assert NonEmpty([base] + parts) == [base] + parts;
      GlueAppend([base], parts, '/');
      NormalizeUnder(base, plain);
    }
  }

  /** The same for the wrappers that strip trailing slashes first. */
  lemma JoinUnder(base: string, parts: seq<string>, plain: seq<string>)
    requires parts != [] && forall k | 0 <= k < |parts| :: parts[k] != "" && parts[k][|parts[k]| - 1] != '/'
    requires plain != [] && AllPlain(plain)
    requires Glue(parts, '/') == Glue(plain, '/')
    ensures JoinPosix([base] + parts) == Render(IsAbsolute(StripSlashes(base)), BaseSegments(base) + plain)
  {
    var stripped := StripAll([base] + parts);
    forall k | 0 <= k < |parts| ensures stripped[k + 1] == parts[k] {
      assert ([base] + parts)[k + 1] == parts[k];
    }
    assert stripped == [StripSlashes(base)] + parts;
    JoinParts(StripSlashes(base), parts, plain);
  }

  /** `Render` with more plain segments appends them to the rendered string. */
  lemma RenderUnder(absolute: bool, segments: seq<string>, plain: seq<string>)
    requires segments != [] && plain != []
    ensures Render(absolute, segments + plain) == Render(absolute, segments) + "/" + Glue(plain, '/')
  {
    GlueAppend(segments, plain, '/');
  }

  /******* Any join *******/

  /** What normalisation can leave: no empty or `.` segment, and `..` only in front. */
  predicate Resolved(segments: seq<string>)
  {
    && (forall k | 0 <= k < |segments| :: '/' !in segments[k] && segments[k] != "" && segments[k] != ".")
    && (forall j, k | 0 <= j < k < |segments| && segments[k] == ".." :: segments[j] == "..")
  }

  lemma ResolvedOne(absolute: bool, kept: seq<string>, segment: string)
    requires Resolved(kept) && '/' !in segment
    ensures Resolved(ResolveOne(absolute, kept, segment))
  {
    if segment == ".." && kept != [] && kept[|kept| - 1] == ".." {
      assert forall j | 0 <= j < |kept| - 1 :: kept[j] == "..";
    }
  }

  lemma {:induction false} ResolveIsResolved(absolute: bool, segments: seq<string>)
    requires forall k | 0 <= k < |segments| :: '/' !in segments[k]
    ensures Resolved(Resolve(absolute, segments))
  {
    if segments != [] {
      var before := segments[..|segments| - 1];
      ResolveIsResolved(absolute, before);
      ResolvedOne(absolute, Resolve(absolute, before), segments[|segments| - 1]);
    }
  }

  predicate Stripped(part: string) { part != "" && part[|part| - 1] != '/' }

  lemma {:induction false} GlueStripped(parts: seq<string>)
    requires parts != [] && forall k | 0 <= k < |parts| :: Stripped(parts[k])
    ensures Stripped(Glue(parts, '/'))
  {
    assert Stripped(parts[0]);
    if |parts| > 1 {
      assert forall k | 0 <= k < |parts| - 1 :: parts[1..][k] == parts[k + 1];
      GlueStripped(parts[1..]);
    }
  }

  lemma {:induction false} NonEmptyStripped(parts: seq<string>)
    requires forall k | 0 <= k < |parts| :: parts[k] == "" || Stripped(parts[k])
    ensures forall k | 0 <= k < |NonEmpty(parts)| :: Stripped(NonEmpty(parts)[k])
  {
    if parts != [] {
      assert forall k | 0 <= k < |parts| - 1 :: parts[1..][k] == parts[k + 1];
      NonEmptyStripped(parts[1..]);
    }
  }

  lemma {:induction false} NonEmptyHas(parts: seq<string>, i: nat)
    requires i < |parts| && parts[i] != ""
    ensures NonEmpty(parts) != []
  {
    if i > 0 { NonEmptyHas(parts[1..], i - 1); }
  }

  /** Joining parts of which one is not empty, and does not consist of slashes, renders resolved segments. */
  lemma JoinIsResolved(parts: seq<string>, i: nat) returns (absolute: bool, segments: seq<string>)
    requires i < |parts| && Stripped(parts[i])
    ensures Resolved(segments) && JoinPosix(parts) == Render(absolute, segments)
  {
    var stripped := StripAll(parts);
    assert stripped[i] == parts[i];
    NonEmptyStripped(stripped);
    NonEmptyHas(stripped, i);
    var g := Glue(NonEmpty(stripped), '/');
    GlueStripped(NonEmpty(stripped));
    absolute, segments := IsAbsolute(g), Resolve(IsAbsolute(g), Split(g, '/'));
    ResolveIsResolved(absolute, Split(g, '/'));
  }

  /** The segments of a rendered path. */
  lemma SplitRender(absolute: bool, segments: seq<string>)
    requires segments != [] && forall k | 0 <= k < |segments| :: '/' !in segments[k]
    ensures Split(Render(absolute, segments), '/') == (if absolute then [""] else []) + segments
  {
    var g := Glue(segments, '/');
    SplitGlue(segments, '/');
    if absolute {
      SplitAppend("", g, '/');
      SplitWithout("", '/');
      assert Render(true, segments) == "" + ['/'] + g;
    } else {
      assert [] + segments == segments && "" + g == g;
    }
  }

  /** If a joined path reads `front/name/rest`, with a plain name, then the rest is plain. */
  lemma RestIsPlain(absolute: bool, segments: seq<string>, front: string, name: string, rest: string)
    requires Resolved(segments) && front != "" && Plain(name)
    requires Render(absolute, segments) == front + "/" + (name + "/" + rest)
    ensures AllPlain(Split(rest, '/'))
  {
    var f, r := Split(front, '/'), Split(rest, '/');
    assert |Render(absolute, segments)| >= |front| + 3;
    assert segments != [];
    SplitRender(absolute, segments);
    SplitWithout(name, '/');
    SplitAppend(name, rest, '/');
    SplitAppend(front, name + "/" + rest, '/');
    RestOfSegments(if absolute then [""] else [], segments, f, name, r);
  }

  lemma RestOfSegments(lead: seq<string>, segments: seq<string>, front: seq<string>, name: string, rest: seq<string>)
    requires Resolved(segments) && |lead| <= 1 && front != [] && Plain(name)
    requires lead + segments == front + ([name] + rest)
    ensures AllPlain(rest)
  {
    var all, at := lead + segments, |front|;
    assert all[at] == name;
    forall k | 0 <= k < |rest| ensures Plain(rest[k]) {
      assert rest[k] == (front + ([name] + rest))[at + 1 + k] == all[at + 1 + k];
      assert all[at + 1 + k] == segments[at + 1 + k - |lead|] && name == segments[at - |lead|];
    }
  }

  /******* Walking on from a directory *******/

  /** Resolving further segments. */
  function WalkOn(absolute: bool, kept: seq<string>, segments: seq<string>): seq<string>
    decreases |segments|
  {
    if segments == [] then kept else WalkOn(absolute, ResolveOne(absolute, kept, segments[0]), segments[1..])
  }

  lemma {:induction false} ResolveAppend(absolute: bool, a: seq<string>, b: seq<string>)
    ensures Resolve(absolute, a + b) == WalkOn(absolute, Resolve(absolute, a), b)
    decreases |b|
  {
    if b == [] {
      assert a + b == a;
    } else {
      assert a + b == (a + [b[0]]) + b[1..];
      assert (a + [b[0]])[..|a|] == a;
      ResolveAppend(absolute, a + [b[0]], b[1..]);
    }
  }

  /** Where segments lead from a directory named by one segment below a base: to a place inside it, or out of it. */
  datatype Walk = Inside(rest: seq<string>) | Outside(path: seq<string>)

  function WalkFrom(base: seq<string>, rest: seq<string>, segments: seq<string>): Walk
    decreases |segments|
  {
    if segments == [] then Inside(rest)
    else
      var s, more := segments[0], segments[1..];
      if s == "" || s == "." then WalkFrom(base, rest, more)
      else if s != ".." then WalkFrom(base, rest + [s], more)
      else if rest != [] then WalkFrom(base, rest[..|rest| - 1], more)
      else Outside(WalkOn(true, base, more))
  }

  /** The same for every name of the directory: once outside, the name is forgotten. */
  lemma {:induction false} WalkFromIs(base: seq<string>, name: string, rest: seq<string>, segments: seq<string>)
    requires Plain(name) && AllPlain(rest) && forall k | 0 <= k < |segments| :: '/' !in segments[k]
    ensures var w := WalkFrom(base, rest, segments);
      && (w.Inside? ==> AllPlain(w.rest))
      && WalkOn(true, base + [name] + rest, segments) == (if w.Inside? then base + [name] + w.rest else w.path)
    decreases |segments|
  {
    if segments != [] {
      var s, more := segments[0], segments[1..];
      var kept := base + [name] + rest;
      if s == "" || s == "." {
        WalkFromIs(base, name, rest, more);
      } else if s != ".." {
        WalkFromIs(base, name, rest + [s], more);
        assert kept + [s] == base + [name] + (rest + [s]);
      } else if rest != [] {
        WalkFromIs(base, name, rest[..|rest| - 1], more);
        assert kept[|kept| - 1] == rest[|rest| - 1] && Plain(rest[|rest| - 1]);
        assert kept[..|kept| - 1] == base + [name] + rest[..|rest| - 1];
      } else {
        assert kept[|kept| - 1] == name && kept[..|kept| - 1] == base;
      }
    }
  }

  lemma NormalizeStripped(g: string)
    requires Stripped(g)
    ensures Normalize(g) == Render(IsAbsolute(g), Resolve(IsAbsolute(g), Split(g, '/')))
  {
  }

  lemma GlueOfThree(base: string, name: string, last: string)
    requires base != "" && name != ""
    ensures Glue(NonEmpty([base, name, last]), '/') == base + "/" + (if last == "" then name else name + "/" + last)
  {
    var tail := if last == "" then [] else [last];
    assert NonEmpty([last]) == tail by { assert [last][1..] == []; }
    assert NonEmpty([name, last]) == [name] + tail by { assert [name, last][1..] == [last]; }
    assert NonEmpty([base, name, last]) == [base] + ([name] + tail) by {
      assert [base, name, last][1..] == [name, last];
    }
    GlueAppend([base], [name] + tail, '/');
    if last != "" { GlueAppend([name], tail, '/'); }
  }

  /** Joining an absolute base, a plain name and any last part walks on from the named directory. */
  lemma JoinWalks(base: string, name: string, last: string)
    requires IsAbsolute(StripSlashes(base)) && Plain(name)
    ensures JoinPosix([base, name, last]) ==
      Render(true, WalkOn(true, BaseSegments(base) + [name], Split(StripSlashes(last), '/')))
  {
    var b, l := StripSlashes(base), StripSlashes(last);
    assert StripAll([base, name, last]) == [b, name, l] by {
      assert name[|name| - 1] in name;
    }
    var tail := if l == "" then name else name + "/" + l;
    var g := b + "/" + tail;
    GlueOfThree(b, name, l);
    assert Stripped(g) by { assert g[|g| - 1] == tail[|tail| - 1]; }
    NormalizeStripped(g);
    assert Split(tail, '/') == [name] + (if l == "" then [] else Split(l, '/')) by {
      SplitWithout(name, '/');
      if l != "" { SplitAppend(name, l, '/'); }
    }
    SplitAppend(b, tail, '/');
    WalkOfJoin(Split(b, '/'), name, l);
  }

  lemma WalkOfJoin(front: seq<string>, name: string, last: string)
    requires Plain(name)
    ensures Resolve(true, front + ([name] + (if last == "" then [] else Split(last, '/'))))
      == WalkOn(true, Resolve(true, front) + [name], Split(last, '/'))
  {
    var more := if last == "" then [] else Split(last, '/');
    assert front + ([name] + more) == (front + [name]) + more;
    ResolveAppend(true, front + [name], more);
    assert (front + [name])[..|front|] == front;
    if last == "" {
      assert Split(last, '/') == [""] && [""][1..] == [];
    }
  }

  /******* What a relative path means *******/

  lemma ResolveSnoc(absolute: bool, segments: seq<string>, last: string)
    ensures Resolve(absolute, segments + [last]) == ResolveOne(absolute, Resolve(absolute, segments), last)
  {
    assert (segments + [last])[..|segments|] == segments;
  }

  lemma {:induction false} ResolvedIsShort(absolute: bool, segments: seq<string>)
    ensures forall k | 0 <= k < |Resolve(absolute, segments)| ::
      Resolve(absolute, segments)[k] != "" && Resolve(absolute, segments)[k] != "."
  {
    if segments != [] { ResolvedIsShort(absolute, segments[..|segments| - 1]); }
  }

  lemma SnocFrom(dir: seq<string>, kept: seq<string>, last: string)
    ensures Resolve(true, dir + (kept + [last])) == ResolveOne(true, Resolve(true, dir + kept), last)
  {
    assert dir + (kept + [last]) == (dir + kept) + [last];
    ResolveSnoc(true, dir + kept, last);
  }

  /** A name and `..` after it cancel out. */
  lemma StepBack(dir: seq<string>, init: seq<string>, name: string)
    requires name != "" && name != "." && name != ".."
    ensures Resolve(true, dir + init) == ResolveOne(true, Resolve(true, dir + (init + [name])), "..")
  {
    SnocFrom(dir, init, name);
  }

  lemma OneFrom(dir: seq<string>, kept: seq<string>, last: string)
    requires forall k | 0 <= k < |kept| :: kept[k] != "" && kept[k] != "."
    ensures Resolve(true, dir + ResolveOne(false, kept, last)) == ResolveOne(true, Resolve(true, dir + kept), last)
  {
    if last == ".." && kept != [] && kept[|kept| - 1] != ".." {
      var init, name := kept[..|kept| - 1], kept[|kept| - 1];
      assert kept == init + [name];
      StepBack(dir, init, name);
    } else {
      SnocFrom(dir, kept, last);
    }
  }

  lemma OneMoreFrom(dir: seq<string>, init: seq<string>, last: string)
    requires Resolve(true, dir + Resolve(false, init)) == Resolve(true, dir + init)
    ensures Resolve(true, dir + Resolve(false, init + [last])) == Resolve(true, dir + (init + [last]))
  {
    ResolvedIsShort(false, init);
    ResolveSnoc(false, init, last);
    OneFrom(dir, Resolve(false, init), last);
    SnocFrom(dir, init, last);
  }

  /** Normalising the segments of a relative path keeps where the path leads from every directory. */
  lemma {:induction false} RelativeMeaning(dir: seq<string>, segments: seq<string>)
    ensures Resolve(true, dir + Resolve(false, segments)) == Resolve(true, dir + segments)
  {
    if segments != [] {
      var init, last := segments[..|segments| - 1], segments[|segments| - 1];
      RelativeMeaning(dir, init);
      OneMoreFrom(dir, init, last);
      assert segments == init + [last];
    }
  }
}
