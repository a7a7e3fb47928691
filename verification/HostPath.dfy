/**
 * The host path algebra (packages/account-contract/src/host-path.ts): two dialects of absolute path text, and the
 * simple model they spell, a volume and a list of segments.
 *
 * Lower-casing is a parameter: any per-character map that keeps `\` and sends nothing else to it.
 */
module HostPath {
  import opened Text

  datatype PathKind = Posix | Windows

  predicate IsSep(c: char) {
    c == '/' || c == '\\'
  }

  predicate IsLetter(c: char) {
    'A' <= c <= 'Z' || 'a' <= c <= 'z'
  }

  function UpperLetter(c: char): (u: char)
    requires IsLetter(c)
    ensures 'A' <= u <= 'Z' && (u == c || u as int + 32 == c as int)
  {
    if 'a' <= c <= 'z' then c - 'a' + 'A' else c
  }

  /** `/^[A-Za-z]:[\\/]/`. */
  predicate IsDrive(path: string) {
    |path| >= 3 && IsLetter(path[0]) && path[1] == ':' && IsSep(path[2])
  }

  /** The end of the longest run without separators that starts at `i`. */
  function RunEnd(path: string, i: nat): (e: nat)
    requires i <= |path|
    ensures i <= e <= |path|
    ensures forall k :: i <= k < e ==> !IsSep(path[k])
    ensures e < |path| ==> IsSep(path[e])
    decreases |path| - i
  {
    if i < |path| && !IsSep(path[i]) then RunEnd(path, i + 1) else i
  }

  /** `/^[\\/]{2}([^\\/?.][^\\/]*)[\\/]([^\\/]+)/`. */
  predicate IsUnc(path: string) {
    && |path| >= 3 && IsSep(path[0]) && IsSep(path[1])
    && !IsSep(path[2]) && path[2] != '?' && path[2] != '.'
    && RunEnd(path, 2) + 1 < |path| && !IsSep(path[RunEnd(path, 2) + 1])
  }

  function Server(path: string): string
    requires IsUnc(path)
  {
    path[2..RunEnd(path, 2)]
  }

  function Share(path: string): string
    requires IsUnc(path)
  {
    path[RunEnd(path, 2) + 1..RunEnd(path, RunEnd(path, 2) + 1)]
  }

  function HostPathKind(path: string): Option<PathKind> {
    if IsDrive(path) || IsUnc(path) then Some(Windows)
    else if StartsWith(path, "/") then Some(Posix)
    else None
  }

  // ---------------------------------------------------------------- dot segments

  function CollapseOnto(kept: seq<string>, segments: seq<string>): seq<string>
    decreases |segments|
  {
    if segments == [] then kept
    else if segments[0] == "" || segments[0] == "." then CollapseOnto(kept, segments[1..])
    else if segments[0] == ".." then CollapseOnto(if kept == [] then [] else kept[..|kept| - 1], segments[1..])
    else CollapseOnto(kept + [segments[0]], segments[1..])
  }

  function Collapse(segments: seq<string>): seq<string> {
    CollapseOnto([], segments)
  }

  method CollapseDotSegments(segments: seq<string>) returns (kept: seq<string>)
    ensures kept == Collapse(segments)
  {
    kept := [];
    for i := 0 to |segments|
      invariant CollapseOnto(kept, segments[i..]) == Collapse(segments)
    {
      var segment := segments[i];
      assert segments[i..][1..] == segments[i + 1..];
      if segment == "" || segment == "." { continue; }
      if segment == ".." {
        if kept != [] { kept := kept[..|kept| - 1]; }
        continue;
      }
      kept := kept + [segment];
    }
  }

  predicate IsPlain(segment: string) {
    segment != "" && segment != "." && segment != ".."
  }

  predicate AllPlain(segments: seq<string>) {
    forall i :: 0 <= i < |segments| ==> IsPlain(segments[i])
  }

  lemma {:induction false} CollapsedArePlain(kept: seq<string>, segments: seq<string>)
    requires AllPlain(kept)
    ensures AllPlain(CollapseOnto(kept, segments))
    ensures forall x :: x in CollapseOnto(kept, segments) ==> x in kept || x in segments
    decreases |segments|
  {
    if segments != [] {
      if segments[0] == "" || segments[0] == "." {
        CollapsedArePlain(kept, segments[1..]);
      } else if segments[0] == ".." {
        CollapsedArePlain(if kept == [] then [] else kept[..|kept| - 1], segments[1..]);
      } else {
        CollapsedArePlain(kept + [segments[0]], segments[1..]);
      }
    }
  }

  lemma {:induction false} CollapsePlain(kept: seq<string>, segments: seq<string>)
    requires AllPlain(segments)
    ensures CollapseOnto(kept, segments) == kept + segments
    decreases |segments|
  {
    if segments == [] {
      assert kept + segments == kept;
    } else {
      assert IsPlain(segments[0]);
      CollapsePlain(kept + [segments[0]], segments[1..]);
      assert kept + [segments[0]] + segments[1..] == kept + segments;
    }
  }

  lemma {:induction false} CollapseConcat(kept: seq<string>, a: seq<string>, b: seq<string>)
    ensures CollapseOnto(kept, a + b) == CollapseOnto(CollapseOnto(kept, a), b)
    decreases |a|
  {
    if a == [] {
      assert a + b == b;
    } else {
      assert (a + b)[1..] == a[1..] + b;
      if a[0] == "" || a[0] == "." {
        CollapseConcat(kept, a[1..], b);
      } else if a[0] == ".." {
        CollapseConcat(if kept == [] then [] else kept[..|kept| - 1], a[1..], b);
      } else {
        CollapseConcat(kept + [a[0]], a[1..], b);
      }
    }
  }

  // ---------------------------------------------------------------- what dot segments mean

  lemma CollapseOnlyAppends(kept: seq<string>, x: string)
    ensures IsPlain(x) ==> CollapseOnto(kept, [x]) == kept + [x]
    ensures x == "" || x == "." ==> CollapseOnto(kept, [x]) == kept
    ensures x == ".." ==> CollapseOnto(kept, [x]) == if kept == [] then [] else kept[..|kept| - 1]
  {
    assert [x][1..] == [];
  }

  /** A blank or single-dot segment drops out wherever it stands. */
  lemma BlanksDropOut(a: seq<string>, x: string, b: seq<string>)
    requires x == "" || x == "."
    ensures Collapse(a + [x] + b) == Collapse(a + b)
  {
    hide CollapseOnto;
    CollapseConcat([], a + [x], b);
    CollapseConcat([], a, [x]);
    CollapseConcat([], a, b);
    CollapseOnlyAppends(CollapseOnto([], a), x);
  }

  /** A double dot cancels the plain segment before it, wherever the two stand. */
  lemma DotsCancel(a: seq<string>, x: string, b: seq<string>)
    requires IsPlain(x)
    ensures Collapse(a + [x, ".."] + b) == Collapse(a + b)
  {
    hide CollapseOnto;
    var kept := CollapseOnto([], a);
    CollapseConcat([], a + [x, ".."], b);
    CollapseConcat([], a, [x, ".."]);
    CollapseConcat([], a, b);
    assert [x, ".."] == [x] + [".."];
    CollapseConcat(kept, [x], [".."]);
    CollapseOnlyAppends(kept, x);
    CollapseOnlyAppends(kept + [x], "..");
    assert (kept + [x])[..|kept|] == kept;
  }

  /** At the volume there is nothing to go back to. */
  lemma DotsStopAtVolume(b: seq<string>)
    ensures Collapse([".."] + b) == Collapse(b)
  {
    hide CollapseOnto;
    CollapseConcat([], [".."], b);
    CollapseOnlyAppends([], "..");
  }

  /** What dot segments mean: plain segments stay, blanks and single dots drop out, a double dot cancels the plain segment before it. */
  ghost predicate ObeysDots(f: seq<string> -> seq<string>) {
    && (forall s :: AllPlain(s) ==> f(s) == s)
    && (forall a, x, b :: x == "" || x == "." ==> f(a + [x] + b) == f(a + b))
    && (forall a, x, b :: IsPlain(x) ==> f(a + [x, ".."] + b) == f(a + b))
    && (forall b :: f([".."] + b) == f(b))
  }

  lemma CollapseObeysDots()
    ensures ObeysDots(Collapse)
  {
    hide Collapse;
    forall s | AllPlain(s) ensures Collapse(s) == s { CollapseOfPlain(s); }
    forall a, x, b | x == "" || x == "." ensures Collapse(a + [x] + b) == Collapse(a + b) { BlanksDropOut(a, x, b); }
    forall a, x, b | IsPlain(x) ensures Collapse(a + [x, ".."] + b) == Collapse(a + b) { DotsCancel(a, x, b); }
    forall b ensures Collapse([".."] + b) == Collapse(b) { DotsStopAtVolume(b); }
  }

  /** The meaning of dot segments determines collapsing: nothing else obeys it. */
  lemma {:induction false} DotsDetermine(f: seq<string> -> seq<string>, s: seq<string>)
    requires ObeysDots(f)
    ensures f(s) == Collapse(s)
    decreases |s|
  {
    hide Collapse, ObeysDots;
    if AllPlain(s) {
      PlainIsKept(f, s);
    } else {
      var i := FirstNotPlain(s);
      var a, x, b := s[..i], s[i], s[i + 1..];
      assert s == a + [x] + b;
      if x == "" || x == "." {
        BlankStep(f, a, x, b);
        DotsDetermine(f, a + b);
      } else if i == 0 {
        assert s == [".."] + b;
        VolumeStep(f, b);
        DotsDetermine(f, b);
      } else {
        var front, y := s[..i - 1], s[i - 1];
        assert s == front + [y, ".."] + b;
        CancelStep(f, front, y, b);
        DotsDetermine(f, front + b);
      }
    }
  }

  lemma PlainIsKept(f: seq<string> -> seq<string>, s: seq<string>)
    requires ObeysDots(f) && AllPlain(s)
    ensures f(s) == s == Collapse(s)
  {
    hide Collapse;
    CollapseOfPlain(s);
  }

  lemma BlankStep(f: seq<string> -> seq<string>, a: seq<string>, x: string, b: seq<string>)
    requires ObeysDots(f) && (x == "" || x == ".")
    ensures f(a + [x] + b) == f(a + b) && Collapse(a + [x] + b) == Collapse(a + b)
  {
    hide Collapse;
    BlanksDropOut(a, x, b);
  }

  lemma CancelStep(f: seq<string> -> seq<string>, a: seq<string>, x: string, b: seq<string>)
    requires ObeysDots(f) && IsPlain(x)
    ensures f(a + [x, ".."] + b) == f(a + b) && Collapse(a + [x, ".."] + b) == Collapse(a + b)
  {
    hide Collapse;
    DotsCancel(a, x, b);
  }

  lemma VolumeStep(f: seq<string> -> seq<string>, b: seq<string>)
    requires ObeysDots(f)
    ensures f([".."] + b) == f(b) && Collapse([".."] + b) == Collapse(b)
  {
    hide Collapse;
    DotsStopAtVolume(b);
  }

  lemma {:induction false} FirstNotPlain(s: seq<string>) returns (i: nat)
    requires !AllPlain(s)
    ensures i < |s| && !IsPlain(s[i]) && forall k :: 0 <= k < i ==> IsPlain(s[k])
  {
    hide IsPlain;
    if !IsPlain(s[0]) {
      i := 0;
    } else {
      assert !AllPlain(s[1..]) by {
        var k :| 0 <= k < |s| && !IsPlain(s[k]);
        assert s[1..][k - 1] == s[k];
      }
      var j := FirstNotPlain(s[1..]);
      i := j + 1;
      assert forall k :: 0 < k < i ==> s[k] == s[1..][k - 1];
    }
  }

  // ---------------------------------------------------------------- normal form

  /** `path.replaceAll("/", "\\")`. */
  function Unify(path: string): (u: string)
    ensures |u| == |path|
    ensures forall i :: 0 <= i < |u| ==> u[i] == if path[i] == '/' then '\\' else path[i]
  {
    seq(|path|, i requires 0 <= i < |path| => if path[i] == '/' then '\\' else path[i])
  }

  function WindowsVolume(unified: string): (v: string)
    requires IsUnc(unified) || IsDrive(unified)
    ensures |v| <= |unified|
  {
    if IsUnc(unified) then "\\\\" + Server(unified) + "\\" + Share(unified)
    else [UpperLetter(unified[0])] + ":"
  }

  function NormalizeHostPath(path: string): Option<string> {
    match HostPathKind(path)
    case None => None
    case Some(Posix) => Some("/" + Join(Collapse(Split(path, '/')), "/"))
    case Some(Windows) =>
      var unified := Unify(path);
      UnifyKeepsKind(path);
      var volume := WindowsVolume(unified);
      var rest := Collapse(Split(unified[|volume|..], '\\'));
      Some(if |rest| == 0 then volume + "\\" else volume + "\\" + Join(rest, "\\"))
  }

  lemma {:induction false} UnifyRunEnd(path: string, i: nat)
    requires i <= |path|
    ensures RunEnd(Unify(path), i) == RunEnd(path, i)
    decreases |path| - i
  {
    if i < |path| {
      UnifyRunEnd(path, i + 1);
    }
  }

  lemma UnifyKeepsKind(path: string)
    ensures IsUnc(Unify(path)) <==> IsUnc(path)
    ensures IsDrive(Unify(path)) <==> IsDrive(path)
  {
    if |path| >= 2 { UnifyRunEnd(path, 2); }
  }

  function Lowered(s: string, lower: char -> char): (t: string)
    ensures |t| == |s|
    ensures forall i :: 0 <= i < |t| ==> t[i] == lower(s[i])
  {
    seq(|s|, i requires 0 <= i < |s| => lower(s[i]))
  }

  predicate HostPathEqual(a: string, b: string, lower: char -> char) {
    if HostPathKind(a) != Some(Windows) || HostPathKind(b) != Some(Windows) then a == b
    else Lowered(a, lower) == Lowered(b, lower)
  }

  predicate HostPathWithin(path: string, root: string, lower: char -> char) {
    var inner, outer := NormalizeHostPath(path), NormalizeHostPath(root);
    if inner.None? || outer.None? || HostPathKind(inner.value) != HostPathKind(outer.value) then false
    else if HostPathKind(inner.value) == Some(Posix) then
      outer.value == "/" || inner.value == outer.value || StartsWith(inner.value, outer.value + "/")
    else
      var under, prefix := Lowered(inner.value, lower), Lowered(outer.value, lower);
      under == prefix || StartsWith(under, if EndsWith(prefix, "\\") then prefix else prefix + "\\")
  }

  // ---------------------------------------------------------------- the model: a volume and its segments

  datatype Volume = Root | Drive(letter: char) | Unc(server: string, share: string)

  datatype Place = Place(volume: Volume, segments: seq<string>)

  function KindOf(v: Volume): PathKind {
    if v.Root? then Posix else Windows
  }

  function SepOf(k: PathKind): char {
    if k == Posix then '/' else '\\'
  }

  /** The text of the volume cut at separators: what precedes the segments. */
  function VolumePieces(v: Volume): (pieces: seq<string>)
    ensures |pieces| >= 1
  {
    match v
    case Root => [""]
    case Drive(letter) => [[letter, ':']]
    case Unc(server, share) => ["", "", server, share]
  }

  function VolumeText(v: Volume): string {
    match v
    case Root => ""
    case Drive(letter) => [letter, ':']
    case Unc(server, share) => "\\\\" + server + "\\" + share
  }

  function Spell(p: Place): string {
    var sep := [SepOf(KindOf(p.volume))];
    VolumeText(p.volume) + sep + Join(p.segments, sep)
  }

  /** Where an absolute path points: the declarative counterpart of normalising. */
  function PlaceOf(path: string): Option<Place> {
    match HostPathKind(path)
    case None => None
    case Some(Posix) => Some(Place(Root, Collapse(Split(path, '/'))))
    case Some(Windows) =>
      if IsUnc(path) then
        var end := RunEnd(path, RunEnd(path, 2) + 1);
        Some(Place(Unc(Server(path), Share(path)), Collapse(Split(Unify(path)[end..], '\\'))))
      else
        Some(Place(Drive(UpperLetter(path[0])), Collapse(Split(Unify(path)[2..], '\\'))))
  }

  predicate SepFree(s: string) {
    forall i :: 0 <= i < |s| ==> !IsSep(s[i])
  }

  predicate ValidVolume(v: Volume) {
    match v
    case Root => true
    case Drive(letter) => 'A' <= letter <= 'Z'
    case Unc(server, share) =>
      server != "" && SepFree(server) && server[0] != '?' && server[0] != '.' && share != "" && SepFree(share)
  }

  /** Segments are plain, and hold no separator of their dialect. */
  predicate ValidPlace(p: Place) {
    && ValidVolume(p.volume) && AllPlain(p.segments)
    && forall i :: 0 <= i < |p.segments| ==>
         if p.volume.Root? then '/' !in p.segments[i] else SepFree(p.segments[i])
  }

  /** The one way a normal form goes wrong: a POSIX path whose normal text reads as a UNC path. */
  predicate Misread(p: Place) {
    p.volume.Root? && IsUnc(Spell(p))
  }

  lemma UnifyKeepsRun(path: string, i: nat, j: nat)
    requires i <= j <= |path| && forall k :: i <= k < j ==> !IsSep(path[k])
    ensures Unify(path)[i..j] == path[i..j]
  {
  }

  lemma UnifiedUnc(path: string)
    requires IsUnc(path)
    ensures IsUnc(Unify(path)) && Server(Unify(path)) == Server(path) && Share(Unify(path)) == Share(path)
    ensures |Server(path)| + 2 == RunEnd(path, 2) && RunEnd(path, RunEnd(path, 2) + 1) == |Server(path)| + |Share(path)| + 3
  {
    hide RunEnd, Unify;
    var mid := RunEnd(path, 2);
    UnifyKeepsKind(path);
    UnifyRunEnd(path, 2);
    UnifyRunEnd(path, mid + 1);
    UnifyKeepsRun(path, 2, mid);
    UnifyKeepsRun(path, mid + 1, RunEnd(path, mid + 1));
  }

  /** The volume's text is what normalising keeps of the front of a Windows path. */
  lemma VolumeOfUnified(path: string)
    requires HostPathKind(path) == Some(Windows)
    ensures IsUnc(Unify(path)) || IsDrive(Unify(path))
    ensures PlaceOf(path).Some? && WindowsVolume(Unify(path)) == VolumeText(PlaceOf(path).value.volume)
    ensures |WindowsVolume(Unify(path))| == if IsUnc(path) then RunEnd(path, RunEnd(path, 2) + 1) else 2
  {
    hide Collapse, Split, RunEnd, IsUnc, Server, Share;
    UnifyKeepsKind(path);
    if IsUnc(path) {
      UnifiedUnc(path);
    } else {
      assert [UpperLetter(path[0])] + ":" == [UpperLetter(path[0]), ':'];
    }
  }

  lemma SpellOf(p: Place)
    ensures Spell(p) == VolumeText(p.volume) + (if p.volume.Root? then "/" else "\\") +
      (if p.segments == [] then "" else Join(p.segments, if p.volume.Root? then "/" else "\\"))
  {
    hide VolumeText;
    EmptyJoin([SepOf(KindOf(p.volume))]);
  }

  lemma NormalizeSpellsPlace(path: string)
    ensures NormalizeHostPath(path).Some? <==> PlaceOf(path).Some?
    ensures PlaceOf(path).Some? ==> NormalizeHostPath(path) == Some(Spell(PlaceOf(path).value))
  {
    hide Collapse, Split, RunEnd, WindowsVolume, VolumeText, Spell, IsUnc, IsDrive, Join;
    if HostPathKind(path) == Some(Windows) {
      VolumeOfUnified(path);
      SpellOf(PlaceOf(path).value);
      var volume := WindowsVolume(Unify(path));
      assert volume + "\\" + "" == volume + "\\";
    } else if HostPathKind(path) == Some(Posix) {
      SpellOf(PlaceOf(path).value);
      var kept := Join(Collapse(Split(path, '/')), "/");
      RootIsNoText();
      EmptyJoin("/");
      assert "" + "/" + kept == "/" + kept;
    }
  }

  lemma RootIsNoText()
    ensures VolumeText(Root) == ""
  {
  }

  lemma PlaceIsValid(path: string)
    requires PlaceOf(path).Some?
    ensures ValidPlace(PlaceOf(path).value)
  {
    hide Split, Collapse, RunEnd;
    var p := PlaceOf(path).value;
    if p.volume.Root? {
      var pieces := Split(path, '/');
      assert p.segments == Collapse(pieces);
      CollapsedPlain(pieces);
      forall i | 0 <= i < |p.segments| ensures '/' !in p.segments[i] { assert p.segments[i] in Collapse(pieces); }
    } else {
      var from := if IsUnc(path) then RunEnd(path, RunEnd(path, 2) + 1) else 2;
      var pieces := Split(Unify(path)[from..], '\\');
      assert p.segments == Collapse(pieces);
      CollapsedPlain(pieces);
      forall i | 0 <= i < |p.segments| ensures SepFree(p.segments[i])
      {
        assert p.segments[i] in Collapse(pieces);
        var k :| 0 <= k < |pieces| && pieces[k] == p.segments[i];
        PiecesInside(Unify(path)[from..], '\\', k);
        forall j | 0 <= j < |pieces[k]| ensures !IsSep(pieces[k][j]) { assert pieces[k][j] in pieces[k]; }
      }
    }
  }

  lemma CollapsedPlain(pieces: seq<string>)
    ensures AllPlain(Collapse(pieces)) && forall x :: x in Collapse(pieces) ==> x in pieces
  {
    CollapsedArePlain([], pieces);
  }

  lemma {:induction false} PiecesInside(s: string, sep: char, k: nat)
    requires k < |Split(s, sep)|
    ensures forall c :: c in Split(s, sep)[k] ==> c in s
  {
    if s != "" {
      var rest := Split(s[1..], sep);
      if s[0] == sep {
        if k > 0 { PiecesInside(s[1..], sep, k - 1); }
      } else {
        PiecesInside(s[1..], sep, k);
      }
    }
  }

  lemma CollapseSpelled(segments: seq<string>, sep: char)
    requires AllPlain(segments) && forall i :: 0 <= i < |segments| ==> sep !in segments[i]
    ensures Collapse(Split([sep] + Join(segments, [sep]), sep)) == segments
  {
    hide Split, Join, Collapse;
    var tail := Join(segments, [sep]);
    assert "" + [sep] + tail == [sep] + tail;
    SplitAtSeparator("", tail, sep);
    SplitOfPiece("", sep);
    CollapseBlanks(Split(tail, sep));
    if segments == [] {
      EmptyJoin([sep]);
      CollapseBlanks([]);
      assert [""] + [] == [""];
    } else {
      SplitJoin(segments, sep);
      CollapseOfPlain(segments);
    }
  }

  lemma CollapseOfPlain(segments: seq<string>)
    requires AllPlain(segments)
    ensures Collapse(segments) == segments
  {
    CollapsePlain([], segments);
    assert [] + segments == segments;
  }

  lemma EmptyJoin(sep: string)
    ensures Join([], sep) == ""
  {
  }

  lemma CollapseBlanks(segments: seq<string>)
    ensures Collapse([""] + segments) == Collapse(segments)
    ensures Collapse([]) == []
  {
    assert ([""] + segments)[1..] == segments;
  }

  lemma {:induction false} JoinHasNoSlash(segments: seq<string>)
    requires forall i :: 0 <= i < |segments| ==> SepFree(segments[i])
    ensures forall k :: 0 <= k < |Join(segments, "\\")| ==> Join(segments, "\\")[k] != '/'
  {
    if |segments| > 1 {
      JoinHasNoSlash(segments[1..]);
    }
  }

  lemma UnifyUnified(text: string)
    requires forall k :: 0 <= k < |text| ==> text[k] != '/'
    ensures Unify(text) == text
  {
  }

  lemma UncText(server: string, share: string, tail: string)
    requires ValidVolume(Unc(server, share))
    requires tail == "" || IsSep(tail[0])
    ensures var text := "\\\\" + server + "\\" + share + tail;
      IsUnc(text) && RunEnd(text, 2) == 2 + |server| && RunEnd(text, RunEnd(text, 2) + 1) == 3 + |server| + |share| &&
      Server(text) == server && Share(text) == share
  {
    hide RunEnd;
    var text := "\\\\" + server + "\\" + share + tail;
    var mid, end := 2 + |server|, 3 + |server| + |share|;
    assert text[2..mid] == server && text[mid] == '\\' && text[mid + 1..end] == share && text[end..] == tail;
    assert forall k :: 2 <= k < mid ==> text[k] == server[k - 2];
    assert forall k :: mid < k < end ==> text[k] == share[k - mid - 1];
    assert end < |text| ==> text[end] == tail[0];
    assert text[2] == server[0] && text[mid + 1] == share[0];
  }

  lemma PosixRoundTrip(p: Place)
    requires ValidPlace(p) && p.volume.Root? && !Misread(p)
    ensures PlaceOf(Spell(p)) == Some(p)
  {
    hide Split, Join, RunEnd, Collapse;
    assert Spell(p) == "/" + Join(p.segments, "/");
    CollapseSpelled(p.segments, '/');
  }

  lemma DriveRoundTrip(p: Place)
    requires ValidPlace(p) && p.volume.Drive?
    ensures PlaceOf(Spell(p)) == Some(p)
  {
    hide Split, Join, RunEnd, Collapse;
    var tail := "\\" + Join(p.segments, "\\");
    var text := [p.volume.letter, ':'] + tail;
    assert Spell(p) == text;
    JoinHasNoSlash(p.segments);
    UnifyUnified(text);
    assert text[2..] == tail;
    CollapseSpelled(p.segments, '\\');
  }

  lemma UncRoundTrip(p: Place)
    requires ValidPlace(p) && p.volume.Unc?
    ensures PlaceOf(Spell(p)) == Some(p)
  {
    hide Split, Join, RunEnd, Collapse;
    var tail := "\\" + Join(p.segments, "\\");
    var text := "\\\\" + p.volume.server + "\\" + p.volume.share + tail;
    assert Spell(p) == text;
    UncText(p.volume.server, p.volume.share, tail);
    JoinHasNoSlash(p.segments);
    UnifyUnified(text);
    assert text[3 + |p.volume.server| + |p.volume.share|..] == tail;
    CollapseSpelled(p.segments, '\\');
  }

  /** Every valid place is the place its own spelling names, unless the spelling is misread. */
  lemma SpellRoundTrip(p: Place)
    requires ValidPlace(p) && !Misread(p)
    ensures PlaceOf(Spell(p)) == Some(p)
  {
    hide PlaceOf, Spell, ValidPlace, Misread;
    match p.volume
    case Root => PosixRoundTrip(p);
    case Drive(_) => DriveRoundTrip(p);
    case Unc(_, _) => UncRoundTrip(p);
  }

  // ---------------------------------------------------------------- normalising twice

  predicate BackslashFree(path: string) {
    '\\' !in path
  }

  /** Text that starts as a server's name does. */
  predicate NamesServer(s: string) {
    s != "" && !IsSep(s[0]) && s[0] != '?' && s[0] != '.'
  }

  /** Text that starts with a server's name, a separator, and a share's. */
  predicate NamesShare(s: string) {
    NamesServer(s) && RunEnd(s, 0) + 1 < |s| && !IsSep(s[RunEnd(s, 0) + 1])
  }

  /**
   * The first kept segment is a backslash and a server's name, with the share's name after another backslash of that segment or, if it
   * holds none, at the start of the next segment.
   */
  predicate ReadsAsUnc(segments: seq<string>) {
    && segments != [] && segments[0] != "" && segments[0][0] == '\\'
    && var s := segments[0][1..];
       NamesShare(s) || (NamesServer(s) && SepFree(s) && |segments| > 1 && segments[1] != "" && !IsSep(segments[1][0]))
  }

  lemma RunEndIs(text: string, i: nat, e: nat)
    requires i <= e <= |text| && (forall k :: i <= k < e ==> !IsSep(text[k])) && (e < |text| ==> IsSep(text[e]))
    ensures RunEnd(text, i) == e
  {
    hide RunEnd;
  }

  lemma UncIs(text: string)
    ensures IsUnc(text) <==> |text| >= 2 && IsSep(text[0]) && IsSep(text[1]) && NamesShare(text[2..])
  {
    hide RunEnd;
    if |text| >= 2 {
      var s := text[2..];
      assert forall k :: 0 <= k < |s| ==> s[k] == text[k + 2];
      RunEndIs(text, 2, RunEnd(s, 0) + 2);
    }
  }

  lemma ShareOfConcat(s: string, tail: string)
    requires tail == "" || IsSep(tail[0])
    ensures NamesShare(s + tail) <==> NamesShare(s) || (NamesServer(s) && SepFree(s) && |tail| > 1 && !IsSep(tail[1]))
  {
    hide RunEnd;
    var e, text := RunEnd(s, 0), s + tail;
    assert forall k :: 0 <= k < |s| ==> text[k] == s[k];
    assert tail != "" ==> text[|s|] == tail[0];
    RunEndIs(text, 0, e);
    if e < |s| {
      assert !SepFree(s);
    } else {
      assert |tail| > 1 ==> text[e + 1] == tail[1];
    }
  }

  /** Exactly which places are misread, told from the kept segments. */
  lemma MisreadExactly(p: Place)
    requires ValidPlace(p)
    ensures Misread(p) <==> p.volume.Root? && ReadsAsUnc(p.segments)
  {
    hide NamesShare, NamesServer, IsUnc, Join;
    if p.volume.Root? {
      var text := Spell(p);
      assert text == "/" + Join(p.segments, "/");
      UncIs(text);
      if p.segments == [] {
        EmptyJoin("/");
      } else {
        PlacesAreNamed(p);
        MisreadSegments(p.segments, text);
      }
    }
  }

  /** Segments that are not empty and hold no slash. */
  predicate Named(segments: seq<string>) {
    forall i :: 0 <= i < |segments| ==> segments[i] != "" && '/' !in segments[i]
  }

  lemma NamedStarts(segments: seq<string>)
    requires segments != [] && Named(segments)
    ensures segments[0] != "" && segments[0][0] != '/' && Named(segments[1..])
  {
    assert segments[0][0] in segments[0];
  }

  lemma PlacesAreNamed(p: Place)
    requires ValidPlace(p) && p.volume.Root?
    ensures Named(p.segments)
  {
    forall i | 0 <= i < |p.segments| ensures p.segments[i] != "" { assert IsPlain(p.segments[i]); }
  }

  lemma MisreadSegments(segments: seq<string>, text: string)
    requires segments != [] && Named(segments) && text == "/" + Join(segments, "/")
    ensures |text| >= 2 && IsSep(text[0]) && IsSep(text[1]) && NamesShare(text[2..]) <==> ReadsAsUnc(segments)
  {
    hide NamesShare, NamesServer, Join, SepFree, Named;
    var first := segments[0];
    NamedStarts(segments);
    JoinHead(segments, "/");
    var tail := if |segments| == 1 then "" else "/" + Join(segments[1..], "/");
    assert text == "/" + first + tail;
    assert text == ['/', first[0]] + (first[1..] + tail);
    assert text[2..] == first[1..] + tail;
    ShareOfConcat(first[1..], tail);
    if |segments| > 1 {
      NamedStarts(segments[1..]);
      JoinFirst(segments[1..], "/");
      assert tail[1] == segments[1][0];
    }
  }

  /** No first kept segment that makes the normal form read as UNC. */
  predicate Stable(path: string) {
    HostPathKind(path) == Some(Posix) ==> !ReadsAsUnc(Collapse(Split(path, '/')))
  }

  lemma StableExactly(path: string)
    requires PlaceOf(path).Some?
    ensures Stable(path) <==> !Misread(PlaceOf(path).value)
  {
    hide Split, Collapse, ReadsAsUnc, Misread, RunEnd, IsUnc, IsDrive;
    PlaceIsValid(path);
    MisreadExactly(PlaceOf(path).value);
  }

  /** Normalising is idempotent exactly on paths whose kept segments do not read as a server and a share. */
  lemma NormalizeIdempotent(path: string)
    requires PlaceOf(path).Some?
    ensures NormalizeHostPath(NormalizeHostPath(path).value) == NormalizeHostPath(path) <==> Stable(path)
  {
    hide PlaceOf, NormalizeHostPath, IsUnc, Join, ValidPlace, Stable;
    var p := PlaceOf(path).value;
    NormalizeSpellsPlace(path);
    PlaceIsValid(path);
    StableExactly(path);
    if Misread(p) {
      MisreadIsWindows(Spell(p));
      NormalizeSpellsPlace(Spell(p));
      assert Spell(p)[0] == '/';
    } else {
      SpellRoundTrip(p);
      NormalizeSpellsPlace(Spell(p));
    }
  }

  lemma MisreadIsWindows(text: string)
    requires IsUnc(text)
    ensures PlaceOf(text).Some? && PlaceOf(text).value.volume.Unc? && Spell(PlaceOf(text).value)[0] == '\\'
  {
    hide Split, Collapse, RunEnd;
  }

  /** Paths free of backslashes, and all Windows paths, are never misread. */
  lemma BackslashFreeIsStable(path: string)
    requires PlaceOf(path).Some? && (HostPathKind(path) == Some(Windows) || BackslashFree(path))
    ensures !Misread(PlaceOf(path).value) && Stable(path)
  {
    hide Split, Collapse, RunEnd, ReadsAsUnc;
    StableExactly(path);
    var p := PlaceOf(path).value;
    PlaceIsValid(path);
    if p.volume.Root? && p.segments != [] {
      var pieces := Split(path, '/');
      CollapsedPlain(pieces);
      assert p.segments[0] in pieces;
      var k :| 0 <= k < |pieces| && pieces[k] == p.segments[0];
      PiecesInside(path, '/', k);
      assert p.segments[0][0] in path;
      assert IsPlain(p.segments[0]);
      JoinFirst(p.segments, "/");
      assert Spell(p)[1] == p.segments[0][0];
      assert p.segments[0][0] in p.segments[0];
    } else if p.volume.Root? {
      EmptyJoin("/");
    }
  }

  lemma JoinFirst(segments: seq<string>, sep: string)
    requires segments != [] && segments[0] != ""
    ensures Join(segments, sep) != "" && Join(segments, sep)[0] == segments[0][0]
  {
  }

  /** `/./\srv/x` is a POSIX path whose normal form `/\srv/x` reads as the share `x` of the server `srv`. */
  lemma MisreadExample()
    ensures var path := "/./\\s/x";
      HostPathKind(path) == Some(Posix) && Misread(PlaceOf(path).value) && !Stable(path)
  {
    hide Split, Join, RunEnd, ReadsAsUnc;
    var path := "/./\\s/x";
    var pieces := ["", ".", "\\s", "x"];
    assert Join(pieces, "/") == path by { JoinFour("", ".", "\\s", "x"); }
    SplitJoin(pieces, '/');
    assert pieces[1..] == [".", "\\s", "x"];
    assert pieces[1..][1..] == ["\\s", "x"];
    assert Collapse(pieces) == ["\\s", "x"] by {
      CollapsePlain([], ["\\s", "x"]);
      assert [] + ["\\s", "x"] == ["\\s", "x"];
    }
    JoinTwo("\\s", "x");
    var text := "/\\s/x";
    assert text[2] == 's' && text[3] == '/' && text[4] == 'x';
    assert RunEnd(text, 2) == 3;
    assert Spell(PlaceOf(path).value) == text;
    StableExactly(path);
  }

  lemma JoinTwo(a: string, b: string)
    ensures Join([a, b], "/") == a + "/" + b
  {
    assert [a, b][1..] == [b];
  }

  lemma JoinFour(a: string, b: string, c: string, d: string)
    ensures Join([a, b, c, d], "/") == a + "/" + (b + "/" + (c + "/" + d))
  {
    assert [a, b, c, d][1..] == [b, c, d] && [b, c, d][1..] == [c, d];
    JoinTwo(c, d);
  }

  // ---------------------------------------------------------------- containment

  /** Lower-casing keeps the separator and sends nothing else to it. */
  ghost predicate KeepsSeparator(lower: char -> char) {
    forall c :: lower(c) == '\\' <==> c == '\\'
  }

  function LowerPieces(pieces: seq<string>, lower: char -> char): (r: seq<string>)
    ensures |r| == |pieces|
    ensures forall i :: 0 <= i < |r| ==> r[i] == Lowered(pieces[i], lower)
  {
    seq(|pieces|, i requires 0 <= i < |pieces| => Lowered(pieces[i], lower))
  }

  /** What containment compares: the spelling itself on POSIX, its case-folding on Windows. */
  function Fold(pieces: seq<string>, kind: PathKind, lower: char -> char): seq<string> {
    if kind == Posix then pieces else LowerPieces(pieces, lower)
  }

  /** Same dialect, same volume, and the outer segments begin the inner ones. */
  predicate Contains(outer: Place, inner: Place, lower: char -> char) {
    var kind := KindOf(outer.volume);
    && KindOf(inner.volume) == kind
    && Fold(VolumePieces(outer.volume), kind, lower) == Fold(VolumePieces(inner.volume), kind, lower)
    && Fold(outer.segments, kind, lower) <= Fold(inner.segments, kind, lower)
  }

  function TailPieces(segments: seq<string>): (r: seq<string>)
    ensures |r| >= 1
  {
    if segments == [] then [""] else segments
  }

  predicate Lacks(pieces: seq<string>, sep: char) {
    forall i :: 0 <= i < |pieces| ==> sep !in pieces[i]
  }

  /** Text joined from pieces extends another by a separator exactly when its pieces extend the other's. */
  lemma JoinedPrefix(a: seq<string>, b: seq<string>, sep: char)
    requires |a| >= 1 && |b| >= 1 && Lacks(a, sep) && Lacks(b, sep)
    ensures Join(a, [sep]) + [sep] <= Join(b, [sep]) <==> a < b
    ensures Join(a, [sep]) == Join(b, [sep]) <==> a == b
  {
    hide Join, Split;
    var s, t := Join(a, [sep]), Join(b, [sep]);
    SplitJoin(a, sep);
    SplitJoin(b, sep);
    if s + [sep] <= t {
      var rest := t[|s| + 1..];
      assert t == s + [sep] + rest;
      SplitAtSeparator(s, rest, sep);
    }
    if a < b {
      var rest := b[|a|..];
      assert b == a + rest;
      JoinConcat(a, rest, [sep]);
    }
  }

  lemma SpellIsJoin(p: Place)
    ensures Spell(p) == Join(VolumePieces(p.volume) + TailPieces(p.segments), [SepOf(KindOf(p.volume))])
  {
    var sep := [SepOf(KindOf(p.volume))];
    JoinConcat(VolumePieces(p.volume), TailPieces(p.segments), sep);
    assert Join(TailPieces(p.segments), sep) == Join(p.segments, sep);
    match p.volume {
      case Root =>
      case Drive(_) =>
      case Unc(server, share) =>
        var v := VolumePieces(p.volume);
        assert v[1..] == ["", server, share] && v[1..][1..] == [server, share] && v[1..][1..][1..] == [share];
        assert Join([server, share], sep) == server + sep + share;
        assert Join(["", server, share], sep) == "" + sep + (server + sep + share);
        assert Join(v, sep) == "" + sep + ("" + sep + (server + sep + share)) == VolumeText(p.volume);
    }
  }

  lemma LoweredConcat(a: string, b: string, lower: char -> char)
    ensures Lowered(a + b, lower) == Lowered(a, lower) + Lowered(b, lower)
  {
  }

  lemma {:induction false} LoweredJoin(pieces: seq<string>, lower: char -> char)
    requires KeepsSeparator(lower)
    ensures Lowered(Join(pieces, "\\"), lower) == Join(LowerPieces(pieces, lower), "\\")
  {
    if |pieces| > 1 {
      var rest := Join(pieces[1..], "\\");
      LoweredJoin(pieces[1..], lower);
      LoweredConcat(pieces[0] + "\\", rest, lower);
      LoweredConcat(pieces[0], "\\", lower);
      assert LowerPieces(pieces, lower)[1..] == LowerPieces(pieces[1..], lower);
      assert Lowered("\\", lower) == "\\";
    }
  }

  lemma LoweredLacks(pieces: seq<string>, lower: char -> char)
    requires KeepsSeparator(lower) && Lacks(pieces, '\\')
    ensures Lacks(LowerPieces(pieces, lower), '\\')
  {
    forall i | 0 <= i < |pieces| ensures '\\' !in Lowered(pieces[i], lower)
    {
      forall k | 0 <= k < |pieces[i]| ensures Lowered(pieces[i], lower)[k] != '\\'
      {
        assert pieces[i][k] in pieces[i];
      }
    }
  }

  /** A volume's pieces: nothing, a drive, or the four pieces of a server and share. */
  predicate VolumeLike(v: seq<string>, kind: PathKind) {
    if kind == Posix then v == [""] else (|v| == 1 && v[0] != "") || (|v| == 4 && v[0] == "")
  }

  /** The text test of containment, on pieces: the root test is a proper prefix, any other also allows equality. */
  lemma PiecesMeanContainment(vo: seq<string>, so: seq<string>, vi: seq<string>, si: seq<string>, kind: PathKind)
    requires VolumeLike(vo, kind) && VolumeLike(vi, kind)
    requires "" !in so && "" !in si
    ensures so == [] ==> (vo < vi + TailPieces(si) <==> vo == vi)
    ensures so != [] ==> (vo + so <= vi + TailPieces(si) <==> vo == vi && so <= si)
  {
    var all := vi + TailPieces(si);
    assert all[0] == vi[0];
    if so == [] && vo == vi {
      assert all[..|vo|] == vo;
    }
    if so != [] && vo + so <= all {
      assert (vo + so)[0] == all[0];
      assert vo == (vo + so)[..|vo|] == all[..|vo|] == vi;
      assert so == (vo + so)[|vo|..] == all[|vo|..|vo| + |so|] == TailPieces(si)[..|so|];
      assert so[0] in so;
    }
    if so != [] && vo == vi && so <= si {
      assert all[..|vo| + |so|] == vo + so;
    }
  }

  lemma PlacePieces(p: Place)
    requires ValidPlace(p)
    ensures VolumeLike(VolumePieces(p.volume), KindOf(p.volume)) && "" !in p.segments
    ensures Lacks(VolumePieces(p.volume) + TailPieces(p.segments), SepOf(KindOf(p.volume)))
  {
    forall i | 0 <= i < |p.segments| ensures p.segments[i] != "" { assert IsPlain(p.segments[i]); }
  }

  lemma FoldFacts(p: Place, kind: PathKind, lower: char -> char)
    requires ValidPlace(p) && KeepsSeparator(lower) && KindOf(p.volume) == kind
    ensures VolumeLike(Fold(VolumePieces(p.volume), kind, lower), kind)
    ensures "" !in Fold(p.segments, kind, lower)
    ensures Fold(VolumePieces(p.volume) + TailPieces(p.segments), kind, lower) ==
            Fold(VolumePieces(p.volume), kind, lower) + TailPieces(Fold(p.segments, kind, lower))
    ensures Lacks(Fold(VolumePieces(p.volume) + TailPieces(p.segments), kind, lower), SepOf(kind))
    ensures kind == Windows ==>
      Lowered(Spell(p), lower) == Join(Fold(VolumePieces(p.volume) + TailPieces(p.segments), kind, lower), "\\")
  {
    hide Join, Spell, ValidPlace, KeepsSeparator;
    PlacePieces(p);
    if kind == Windows {
      LoweredLacks(VolumePieces(p.volume) + TailPieces(p.segments), lower);
      SpellIsJoin(p);
      LoweredJoin(VolumePieces(p.volume) + TailPieces(p.segments), lower);
      forall i | 0 <= i < |p.segments| ensures LowerPieces(p.segments, lower)[i] != ""
      {
        assert |LowerPieces(p.segments, lower)[i]| == |p.segments[i]| && p.segments[i] in p.segments;
      }
    }
  }

  lemma {:induction false} JoinLast(pieces: seq<string>, sep: char)
    requires pieces != [] && pieces[|pieces| - 1] != "" && Lacks(pieces, sep)
    ensures Join(pieces, [sep]) != "" && Join(pieces, [sep])[|Join(pieces, [sep])| - 1] != sep
  {
    if |pieces| == 1 {
      assert pieces[0][|pieces[0]| - 1] in pieces[0];
    } else {
      JoinLast(pieces[1..], sep);
    }
  }

  lemma EndsWithChar(text: string, c: char)
    ensures EndsWith(text, [c]) <==> text != "" && text[|text| - 1] == c
  {
    if text != "" { assert text[|text| - 1..] == [text[|text| - 1]]; }
  }

  /** Joined text ends with the separator exactly when its last piece is empty, as a root's is. */
  lemma EndsInSeparator(text: string, pieces: seq<string>, sep: char)
    requires text == Join(pieces, [sep]) && Lacks(pieces, sep) && |pieces| >= 2
    ensures EndsWith(text, [sep]) <==> pieces[|pieces| - 1] == ""
  {
    hide Join, EndsWith, Lacks;
    EndsWithChar(text, sep);
    if pieces[|pieces| - 1] == "" {
      var front := pieces[..|pieces| - 1];
      assert pieces == front + [""];
      JoinConcat(front, [""], [sep]);
      JoinOne("", [sep]);
      assert text == Join(front, [sep]) + [sep] + "";
    } else {
      JoinLast(pieces, sep);
    }
  }

  lemma JoinOne(piece: string, sep: string)
    ensures Join([piece], sep) == piece
  {
  }

  lemma TextContainment(vo: seq<string>, so: seq<string>, vi: seq<string>, si: seq<string>, kind: PathKind, sep: char)
    requires VolumeLike(vo, kind) && VolumeLike(vi, kind) && "" !in so && "" !in si
    requires Lacks(vo + TailPieces(so), sep) && Lacks(vi + TailPieces(si), sep)
    ensures var outer, inner := Join(vo + TailPieces(so), [sep]), Join(vi + TailPieces(si), [sep]);
      && (EndsWith(outer, [sep]) <==> so == [])
      && (inner == outer || StartsWith(inner, if so == [] then outer else outer + [sep]) <==> vo == vi && so <= si)
  {
    hide Join;
    var all := vo + TailPieces(so);
    var outer, inner := Join(all, [sep]), Join(vi + TailPieces(si), [sep]);
    EndsInSeparator(outer, all, sep);
    PiecesMeanContainment(vo, so, vi, si, kind);
    JoinedPrefix(all, vi + TailPieces(si), sep);
    if so == [] {
      assert all[|all| - 1] == "";
      JoinConcat(vo, [""], [sep]);
      JoinOne("", [sep]);
      assert outer == Join(vo, [sep]) + [sep];
      assert forall k :: 0 <= k < |vo| ==> vo[k] == all[k];
      JoinedPrefix(vo, vi + TailPieces(si), sep);
      assert all == vi + TailPieces(si) ==> vo < vi + TailPieces(si);
    } else {
      assert all[|all| - 1] == so[|so| - 1] && so[|so| - 1] in so;
      assert all == vo + so;
    }
  }

  lemma KindOfSpelled(p: Place)
    requires ValidPlace(p) && !Misread(p)
    ensures HostPathKind(Spell(p)) == Some(KindOf(p.volume))
  {
    hide Split, Collapse, RunEnd, IsUnc, IsDrive, Spell, ValidPlace;
    SpellRoundTrip(p);
  }

  /** Containment of path text is containment of the places it names: same dialect, same volume, a prefix of segments. */
  lemma WithinMeansContains(path: string, root: string, lower: char -> char)
    requires KeepsSeparator(lower) && Stable(path) && Stable(root)
    ensures HostPathWithin(path, root, lower) <==>
      PlaceOf(path).Some? && PlaceOf(root).Some? && Contains(PlaceOf(root).value, PlaceOf(path).value, lower)
  {
    hide Stable, Contains, Spell, Misread, PlaceOf, ValidPlace, KeepsSeparator, NormalizeHostPath;
    NormalizeSpellsPlace(path);
    NormalizeSpellsPlace(root);
    if PlaceOf(path).Some? && PlaceOf(root).Some? {
      StableExactly(path);
      StableExactly(root);
      PlaceIsValid(path);
      PlaceIsValid(root);
      SpelledContainment(PlaceOf(root).value, PlaceOf(path).value, path, root, lower);
    }
  }

  /** Lower-casing keeps the slash too, and sends nothing else to it. */
  ghost predicate KeepsSlash(lower: char -> char) {
    forall c :: lower(c) == '/' <==> c == '/'
  }

  /** Text containment by this path of any root is containment of places. */
  ghost predicate ContainmentHolds(path: string, lower: char -> char) {
    forall root :: HostPathWithin(path, root, lower) <==>
      PlaceOf(path).Some? && PlaceOf(root).Some? && Contains(PlaceOf(root).value, PlaceOf(path).value, lower)
  }

  lemma ReadsAsUncExtends(a: seq<string>, b: seq<string>)
    requires a <= b && ReadsAsUnc(a)
    ensures ReadsAsUnc(b)
  {
    hide NamesShare, NamesServer, SepFree;
  }

  lemma MisreadIsWindowsText(p: Place)
    requires Misread(p)
    ensures HostPathKind(Spell(p)) == Some(Windows) && Spell(p) != "" && Spell(p)[0] == '/'
  {
    hide IsUnc, Join;
  }

  lemma WindowsStart(p: Place)
    requires ValidPlace(p) && !p.volume.Root?
    ensures Spell(p) != "" && Spell(p)[0] != '/'
  {
    hide Join;
  }

  lemma StartsDiffer(under: string, prefix: string)
    requires under != "" && prefix != "" && under[0] != prefix[0]
    ensures under != prefix && !StartsWith(under, prefix) && !StartsWith(under, prefix + "\\")
  {
    assert (prefix + "\\")[0] == prefix[0];
  }

  /** A misread root contains no path that is not misread itself. */
  lemma MisreadRootContainsNone(path: string, root: string, lower: char -> char)
    requires KeepsSlash(lower) && PlaceOf(path).Some? && PlaceOf(root).Some?
    requires !Misread(PlaceOf(path).value) && Misread(PlaceOf(root).value)
    ensures !HostPathWithin(path, root, lower) && !Contains(PlaceOf(root).value, PlaceOf(path).value, lower)
  {
    hide Spell, PlaceOf, ValidPlace, NormalizeHostPath, HostPathKind, ReadsAsUnc, Misread, VolumePieces;
    var inner, outer := PlaceOf(path).value, PlaceOf(root).value;
    NormalizeSpellsPlace(path);
    NormalizeSpellsPlace(root);
    PlaceIsValid(path);
    PlaceIsValid(root);
    KindOfSpelled(inner);
    MisreadIsWindowsText(outer);
    MisreadExactly(inner);
    MisreadExactly(outer);
    if inner.volume.Root? && outer.segments <= inner.segments { ReadsAsUncExtends(outer.segments, inner.segments); }
    if !inner.volume.Root? {
      WindowsStart(inner);
      StartsDiffer(Lowered(Spell(inner), lower), Lowered(Spell(outer), lower));
    }
  }

  /** A misread path is not even within the root of the dialect it belongs to. */
  lemma MisreadPathLeavesRoot(path: string, lower: char -> char)
    requires PlaceOf(path).Some? && Misread(PlaceOf(path).value)
    ensures PlaceOf("/") == Some(Place(Root, [])) && !HostPathWithin(path, "/", lower)
    ensures Contains(Place(Root, []), PlaceOf(path).value, lower)
  {
    hide Spell, PlaceOf, NormalizeHostPath, HostPathKind, Misread, RunEnd, Split, Collapse, Join;
    NormalizeSpellsPlace(path);
    MisreadIsWindowsText(PlaceOf(path).value);
    RootIsPlain();
    NormalizeSpellsPlace("/");
    MisreadIsRoot(PlaceOf(path).value);
  }

  lemma MisreadIsRoot(p: Place)
    requires Misread(p)
    ensures p.volume.Root?
  {
  }

  lemma RootIsPlain()
    ensures PlaceOf("/") == Some(Place(Root, [])) && Spell(Place(Root, [])) == "/" && HostPathKind("/") == Some(Posix)
  {
    hide RunEnd, Split, Collapse;
    EmptyJoin("/");
    assert "" + "/" + "" == "/";
    RootIsRead(Place(Root, []));
    SpellRoundTrip(Place(Root, []));
  }

  /** For every path: text containment agrees with containment of places, whatever the root, exactly when the path is not misread. */
  lemma WithinExactly(path: string, lower: char -> char)
    requires KeepsSeparator(lower) && KeepsSlash(lower)
    ensures ContainmentHolds(path, lower) <==> (PlaceOf(path).Some? ==> Stable(path))
  {
    hide HostPathWithin, Stable, PlaceOf, Misread, Contains, KeepsSeparator, KeepsSlash;
    if PlaceOf(path).None? {
      forall root ensures !HostPathWithin(path, root, lower) { NowhereWithin(path, root, lower); }
    } else {
      StableExactly(path);
      if Stable(path) {
        forall root ensures HostPathWithin(path, root, lower) <==>
          PlaceOf(root).Some? && Contains(PlaceOf(root).value, PlaceOf(path).value, lower)
        {
          if PlaceOf(root).None? {
            NowhereWithin(path, root, lower);
          } else {
            StableExactly(root);
            if Stable(root) { WithinMeansContains(path, root, lower); } else { MisreadRootContainsNone(path, root, lower); }
          }
        }
      } else {
        MisreadPathLeavesRoot(path, lower);
      }
    }
  }

  lemma NowhereWithin(path: string, root: string, lower: char -> char)
    requires PlaceOf(path).None? || PlaceOf(root).None?
    ensures !HostPathWithin(path, root, lower)
  {
    hide PlaceOf, NormalizeHostPath;
    NormalizeSpellsPlace(path);
    NormalizeSpellsPlace(root);
  }

  lemma SpelledContainment(outer: Place, inner: Place, path: string, root: string, lower: char -> char)
    requires KeepsSeparator(lower) && ValidPlace(outer) && ValidPlace(inner) && !Misread(outer) && !Misread(inner)
    requires NormalizeHostPath(path) == Some(Spell(inner)) && NormalizeHostPath(root) == Some(Spell(outer))
    ensures HostPathWithin(path, root, lower) <==> Contains(outer, inner, lower)
  {
    hide NormalizeHostPath, HostPathKind, Misread, ValidPlace, Spell, Join, VolumePieces, KeepsSeparator;
    KindOfSpelled(outer);
    KindOfSpelled(inner);
    var kind := KindOf(outer.volume);
    if KindOf(inner.volume) == kind {
      FoldFacts(outer, kind, lower);
      FoldFacts(inner, kind, lower);
      TextContainment(Fold(VolumePieces(outer.volume), kind, lower), Fold(outer.segments, kind, lower),
                      Fold(VolumePieces(inner.volume), kind, lower), Fold(inner.segments, kind, lower), kind, SepOf(kind));
      if kind == Posix {
        SpellIsJoin(outer);
        SpellIsJoin(inner);
        PosixRootText(outer);
      }
    }
  }

  lemma PosixRootText(p: Place)
    requires p.volume.Root?
    ensures p.segments == [] ==> Spell(p) == "/"
    ensures Spell(p) == "/" ==> EndsWith(Spell(p), "/")
  {
  }

  lemma FoldedPiecesDecide(a: Place, b: Place, lower: char -> char)
    requires KeepsSeparator(lower) && ValidPlace(a) && ValidPlace(b) && a.volume.Root? == b.volume.Root? == false
    ensures Lowered(Spell(a), lower) == Lowered(Spell(b), lower) <==> Contains(a, b, lower) && Contains(b, a, lower)
  {
    hide Join, Spell, VolumePieces, ValidPlace, KeepsSeparator;
    FoldFacts(a, Windows, lower);
    FoldFacts(b, Windows, lower);
    var va, vb := Fold(VolumePieces(a.volume), Windows, lower), Fold(VolumePieces(b.volume), Windows, lower);
    var sa, sb := Fold(a.segments, Windows, lower), Fold(b.segments, Windows, lower);
    JoinedPrefix(va + TailPieces(sa), vb + TailPieces(sb), '\\');
    PiecesMeanContainment(va, sa, vb, sb, Windows);
    PiecesMeanContainment(vb, sb, va, sa, Windows);
    if va + TailPieces(sa) == vb + TailPieces(sb) {
      assert sa == [] ==> va < va + TailPieces(sa);
      assert sb == [] ==> vb < vb + TailPieces(sb);
    }
  }

  /** Containment is a preorder on absolute paths, and containing each other is naming one folder. */
  lemma WithinIsAnOrder(a: string, b: string, c: string, lower: char -> char)
    requires KeepsSeparator(lower) && Stable(a) && Stable(b) && Stable(c)
    ensures HostPathWithin(a, a, lower) <==> NormalizeHostPath(a).Some?
    ensures HostPathWithin(a, b, lower) && HostPathWithin(b, c, lower) ==> HostPathWithin(a, c, lower)
    ensures NormalizeHostPath(a).Some? && NormalizeHostPath(b).Some? ==>
      (HostPathWithin(a, b, lower) && HostPathWithin(b, a, lower) <==>
       HostPathEqual(NormalizeHostPath(a).value, NormalizeHostPath(b).value, lower))
  {
    hide HostPathWithin, NormalizeHostPath, PlaceOf, Misread, ValidPlace, VolumePieces, Spell, HostPathKind, KeepsSeparator, Stable;
    WithinMeansContains(a, a, lower);
    WithinMeansContains(a, b, lower);
    WithinMeansContains(b, c, lower);
    WithinMeansContains(a, c, lower);
    WithinMeansContains(b, a, lower);
    NormalizeSpellsPlace(a);
    NormalizeSpellsPlace(b);
    if PlaceOf(a).Some? && PlaceOf(b).Some? {
      StableExactly(a);
      StableExactly(b);
      EqualMeansSamePlace(PlaceOf(a).value, PlaceOf(b).value, a, b, lower);
    }
  }

  lemma EqualMeansSamePlace(p: Place, q: Place, a: string, b: string, lower: char -> char)
    requires KeepsSeparator(lower) && PlaceOf(a) == Some(p) && PlaceOf(b) == Some(q) && !Misread(p) && !Misread(q)
    ensures HostPathEqual(Spell(p), Spell(q), lower) <==> Contains(p, q, lower) && Contains(q, p, lower)
  {
    hide PlaceOf, Misread, ValidPlace, VolumePieces, Spell, HostPathKind, KeepsSeparator;
    PlaceIsValid(a);
    PlaceIsValid(b);
    KindOfSpelled(p);
    KindOfSpelled(q);
    SpellRoundTrip(p);
    SpellRoundTrip(q);
    if !p.volume.Root? && !q.volume.Root? {
      FoldedPiecesDecide(p, q, lower);
    } else if p.volume.Root? && q.volume.Root? {
      assert p.segments <= q.segments && q.segments <= p.segments ==> p.segments == q.segments;
    }
  }

  // ---------------------------------------------------------------- parent, basename, join

  function LastIndexOf(s: string, c: char): (k: int)
    ensures -1 <= k < |s|
    ensures k >= 0 ==> s[k] == c
    ensures forall i :: k < i < |s| ==> s[i] != c
  {
    if s == "" then -1
    else if s[|s| - 1] == c then |s| - 1
    else LastIndexOf(s[..|s| - 1], c)
  }

  predicate IsVolume(value: string, kind: PathKind) {
    if kind == Posix then value == ""
    else
      || (|value| == 2 && IsLetter(value[0]) && value[1] == ':')
      || (IsUnc(value) && RunEnd(value, RunEnd(value, 2) + 1) == |value|)
  }

  function HostPathParent(path: string): Option<string> {
    match HostPathKind(path)
    case None => None
    case Some(kind) =>
      var sep := SepOf(kind);
      if EndsWith(path, [sep]) then None
      else
        var last := LastIndexOf(path, sep);
        // `slice(0, -1)` drops the last character
        var parent := if last < 0 then path[..|path| - 1] else path[..last];
        Some(if IsVolume(parent, kind) then parent + [sep] else parent)
  }

  function HostPathBasename(path: string): string {
    match HostPathKind(path)
    case None => ""
    case Some(kind) =>
      var sep := SepOf(kind);
      if EndsWith(path, [sep]) then "" else path[LastIndexOf(path, sep) + 1..]
  }

  function JoinText(base: string, segments: seq<string>, kind: PathKind): string {
    Join([base] + segments, [SepOf(kind)])
  }

  function HostPathJoin(base: string, segments: seq<string>): Option<string> {
    match HostPathKind(base)
    case None => None
    case Some(kind) => NormalizeHostPath(JoinText(base, segments, kind))
  }

  lemma UncExtends(x: string, y: string)
    requires IsUnc(x)
    ensures IsUnc(x + y) && RunEnd(x + y, 2) == RunEnd(x, 2)
    ensures y == "" || IsSep(y[0]) ==> RunEnd(x + y, RunEnd(x, 2) + 1) == RunEnd(x, RunEnd(x, 2) + 1)
  {
    hide RunEnd;
    var e, f := RunEnd(x, 2), RunEnd(x + y, 2);
    assert forall k :: 0 <= k < |x| ==> (x + y)[k] == x[k];
    assert (x + y)[e + 1] == x[e + 1];
    if y != "" { assert (x + y)[|x|] == y[0]; }
  }

  lemma {:induction false} LastPiece(x: string, last: string, sep: char)
    requires sep !in last
    ensures LastIndexOf(x + [sep] + last, sep) == |x|
    decreases |last|
  {
    var text := x + [sep] + last;
    if last == "" {
      assert text == x + [sep];
    } else {
      var front := last[..|last| - 1];
      assert text[..|text| - 1] == x + [sep] + front;
      LastPiece(x, front, sep);
    }
  }

  function Front(p: Place): Place
    requires p.segments != []
  {
    p.(segments := p.segments[..|p.segments| - 1])
  }

  /** The text of a path that is not a root: its parent's text without a trailing separator, then the last segment. */
  function ParentText(p: Place): string
    requires p.segments != []
  {
    if |p.segments| == 1 then VolumeText(p.volume) else Spell(Front(p))
  }

  lemma SpellSplitsLast(p: Place)
    requires p.segments != []
    ensures Spell(p) == ParentText(p) + [SepOf(KindOf(p.volume))] + p.segments[|p.segments| - 1]
  {
    hide Join;
    var sep := [SepOf(KindOf(p.volume))];
    var front, last := p.segments[..|p.segments| - 1], p.segments[|p.segments| - 1];
    JoinOne(last, sep);
    if |p.segments| == 1 {
      assert p.segments == [last];
    } else {
      assert p.segments == front + [last];
      JoinConcat(front, [last], sep);
    }
  }

  lemma VolumeTextIsVolume(v: Volume)
    requires ValidVolume(v)
    ensures IsVolume(VolumeText(v), KindOf(v))
  {
    hide RunEnd;
    if v.Unc? {
      UncText(v.server, v.share, "");
      assert "\\\\" + v.server + "\\" + v.share + "" == VolumeText(v);
    }
  }

  lemma DeeperIsNoVolume(p: Place)
    requires ValidPlace(p) && p.segments != []
    ensures !IsVolume(Spell(p), KindOf(p.volume))
  {
    hide RunEnd, Join;
    JoinFirst(p.segments, [SepOf(KindOf(p.volume))]) by { assert IsPlain(p.segments[0]); }
    if p.volume.Unc? {
      var tail := "\\" + Join(p.segments, "\\");
      UncText(p.volume.server, p.volume.share, tail);
      assert Spell(p) == "\\\\" + p.volume.server + "\\" + p.volume.share + tail;
    }
  }

  lemma RootIsRead(p: Place)
    requires p.volume.Root? && p.segments == []
    ensures !Misread(p)
  {
  }

  lemma MisreadFront(p: Place)
    requires p.volume.Root? && |p.segments| > 1 && Misread(Front(p))
    ensures Misread(p)
  {
    hide IsUnc, Join, Spell;
    SpellSplitsLast(p);
    var more := "/" + p.segments[|p.segments| - 1];
    UncExtends(Spell(Front(p)), more);
    assert Spell(p) == Spell(Front(p)) + more;
  }

  lemma FrontIsStable(p: Place)
    requires ValidPlace(p) && !Misread(p) && p.segments != []
    ensures ValidPlace(Front(p)) && !Misread(Front(p))
  {
    hide RunEnd, Join, Spell;
    if p.volume.Root? && |p.segments| == 1 {
      RootIsRead(Front(p));
    } else if Misread(Front(p)) {
      MisreadFront(p);
    }
  }

  /** A root has no parent; any other path's parent drops its last segment, which is its basename. */
  lemma ParentAndBasename(p: Place)
    requires ValidPlace(p) && !Misread(p)
    ensures p.segments == [] ==> HostPathParent(Spell(p)) == None && HostPathBasename(Spell(p)) == ""
    ensures p.segments != [] ==> HostPathParent(Spell(p)) == Some(Spell(Front(p)))
    ensures p.segments != [] ==> HostPathBasename(Spell(p)) == p.segments[|p.segments| - 1]
  {
    hide HostPathKind, Join, IsVolume, LastIndexOf, VolumeText;
    KindOfSpelled(p);
    var sep := SepOf(KindOf(p.volume));
    if p.segments == [] {
      EmptyJoin([sep]);
      assert Spell(p)[|Spell(p)| - 1..] == [sep];
    } else {
      var last := p.segments[|p.segments| - 1];
      assert IsPlain(last);
      assert sep !in last;
      SpellSplitsLast(p);
      LastPiece(ParentText(p), last, sep);
      var text := Spell(p);
      assert text[|text| - 1] == last[|last| - 1] && last[|last| - 1] in last;
      assert text[|text| - 1..] == [text[|text| - 1]];
      assert text[..|ParentText(p)|] == ParentText(p);
      assert text[|ParentText(p)| + 1..] == last;
      FrontText(p);
    }
  }

  lemma FrontText(p: Place)
    requires ValidPlace(p) && p.segments != []
    ensures Spell(Front(p)) ==
      if IsVolume(ParentText(p), KindOf(p.volume)) then ParentText(p) + [SepOf(KindOf(p.volume))] else ParentText(p)
  {
    hide Join, IsVolume, VolumeText;
    if |p.segments| == 1 {
      VolumeTextIsVolume(p.volume);
      EmptyJoin([SepOf(KindOf(p.volume))]);
    } else {
      DeeperIsNoVolume(Front(p));
    }
  }

  /** The parent, taken `k` times. */
  function Climb(path: string, k: nat): Option<string>
    decreases k
  {
    if k == 0 then Some(path)
    else
      match HostPathParent(path)
      case None => None
      case Some(parent) => Climb(parent, k - 1)
  }

  /** Climbing reaches the volume root in exactly as many steps as there are segments, and no further. */
  lemma {:induction false} ClimbReachesRoot(p: Place)
    requires ValidPlace(p) && !Misread(p)
    ensures Climb(Spell(p), |p.segments|) == Some(Spell(p.(segments := [])))
    ensures Climb(Spell(p), |p.segments| + 1) == None
    decreases |p.segments|
  {
    hide Spell, HostPathParent, HostPathBasename, ValidPlace, Misread;
    ParentAndBasename(p);
    if p.segments != [] {
      FrontIsStable(p);
      ClimbReachesRoot(Front(p));
    }
  }

  lemma CollapseAppend(a: seq<string>, b: seq<string>)
    ensures Collapse(a + b) == Collapse(Collapse(a) + b)
  {
    hide CollapseOnto;
    CollapsedPlain(a);
    CollapseConcat([], a, b);
    CollapseConcat([], Collapse(a), b);
    CollapseOfPlain(Collapse(a));
  }

  lemma UnifyConcat(a: string, b: string)
    ensures Unify(a + b) == Unify(a) + Unify(b)
  {
  }

  predicate AllSepFree(segments: seq<string>) {
    forall i :: 0 <= i < |segments| ==> SepFree(segments[i])
  }

  /** No segment holds a separator of the dialect: on POSIX a backslash is an ordinary character. */
  predicate SegmentsFit(segments: seq<string>, kind: PathKind) {
    if kind == Posix then Lacks(segments, '/') else AllSepFree(segments)
  }

  lemma PlaceOfPosixText(base: string, segments: seq<string>)
    requires HostPathKind(base) == Some(Posix) && segments != [] && Lacks(segments, '/')
    requires !IsUnc(base + "/" + Join(segments, "/"))
    ensures PlaceOf(base + "/" + Join(segments, "/")) == Some(Place(Root, Collapse(PlaceOf(base).value.segments + segments)))
  {
    hide Split, Join, RunEnd, Collapse, IsUnc;
    var tail := Join(segments, "/");
    SplitAtSeparator(base, tail, '/');
    SplitJoin(segments, '/');
    CollapseAppend(Split(base, '/'), segments);
    assert (base + "/" + tail)[0] == '/';
  }

  lemma UnifiedTail(base: string, segments: seq<string>, from: nat)
    requires segments != [] && AllSepFree(segments) && from <= |base|
    ensures Unify(base + ("\\" + Join(segments, "\\")))[from..] == Unify(base)[from..] + "\\" + Join(segments, "\\")
  {
    hide Join;
    var more := "\\" + Join(segments, "\\");
    JoinHasNoSlash(segments);
    UnifyUnified(more);
    UnifyConcat(base, more);
  }

  lemma CollapsedTail(cut: string, segments: seq<string>)
    requires segments != [] && AllSepFree(segments)
    ensures Collapse(Split(cut + "\\" + Join(segments, "\\"), '\\')) == Collapse(Collapse(Split(cut, '\\')) + segments)
  {
    hide Split, Join, Collapse;
    forall i | 0 <= i < |segments| ensures '\\' !in segments[i] { assert SepFree(segments[i]); }
    SplitAtSeparator(cut, Join(segments, "\\"), '\\');
    SplitJoin(segments, '\\');
    CollapseAppend(Split(cut, '\\'), segments);
  }

  lemma PlaceOfWindowsText(base: string, segments: seq<string>)
    requires HostPathKind(base) == Some(Windows) && segments != [] && AllSepFree(segments)
    ensures PlaceOf(base + ("\\" + Join(segments, "\\"))) ==
            Some(Place(PlaceOf(base).value.volume, Collapse(PlaceOf(base).value.segments + segments)))
  {
    hide Split, Join, RunEnd, Collapse, Unify, AllSepFree;
    var more := "\\" + Join(segments, "\\");
    var text := base + more;
    var from := if IsUnc(base) then RunEnd(base, RunEnd(base, 2) + 1) else 2;
    if IsUnc(base) {
      UncExtends(base, more);
      assert Server(text) == Server(base) && Share(text) == Share(base);
    }
    UnifiedTail(base, segments, from);
    CollapsedTail(Unify(base)[from..], segments);
  }

  lemma JoinTextIs(base: string, segments: seq<string>, kind: PathKind)
    requires segments != []
    ensures JoinText(base, segments, kind) == base + [SepOf(kind)] + Join(segments, [SepOf(kind)])
  {
    assert ([base] + segments)[1..] == segments;
  }

  /** The place reached by appending segments and collapsing. */
  function Appended(base: Place, segments: seq<string>): Place {
    Place(base.volume, Collapse(base.segments + segments))
  }

  /**
   * Joining segments that hold no separator of the base's dialect appends them to the base's segments and collapses, exactly when the
   * joined text of a POSIX base is not read as a UNC path.
   */
  lemma JoinAppends(base: string, segments: seq<string>)
    requires PlaceOf(base).Some? && SegmentsFit(segments, HostPathKind(base).value)
    ensures HostPathJoin(base, segments) == Some(Spell(Appended(PlaceOf(base).value, segments))) <==>
            !(HostPathKind(base) == Some(Posix) && IsUnc(JoinText(base, segments, Posix)))
  {
    hide Split, Join, RunEnd, Collapse, IsUnc, IsDrive, PlaceOf, NormalizeHostPath, Spell, JoinText;
    KindMatchesPlace(base);
    var kind := HostPathKind(base).value;
    var p := PlaceOf(base).value;
    var text := JoinText(base, segments, kind);
    NormalizeSpellsPlace(text);
    if kind == Posix && IsUnc(text) {
      MisreadIsWindows(text);
      SpellStart(Appended(p, segments));
    } else if segments == [] {
      assert text == base by { JoinNothing(base, kind); }
      PlaceIsValid(base);
      CollapseOfPlain(p.segments);
      assert p.segments + segments == p.segments;
    } else {
      JoinTextIs(base, segments, kind);
      if kind == Posix { PlaceOfPosixText(base, segments); } else {
        PlaceOfWindowsText(base, segments);
        assert base + "\\" + Join(segments, "\\") == base + ("\\" + Join(segments, "\\"));
      }
    }
  }

  lemma KindMatchesPlace(path: string)
    requires PlaceOf(path).Some?
    ensures HostPathKind(path) == Some(KindOf(PlaceOf(path).value.volume))
  {
    hide Split, Collapse, RunEnd, IsUnc, IsDrive;
  }

  lemma JoinNothing(base: string, kind: PathKind)
    ensures JoinText(base, [], kind) == base
  {
    assert [base] + [] == [base];
  }

  lemma SpellStart(p: Place)
    requires p.volume.Root?
    ensures Spell(p)[0] == '/'
  {
  }

  /** For a normalized base free of backslashes the exception is the root with two segments that look like a server and a share. */
  lemma RootJoinIsTheException(p: Place, segments: seq<string>)
    requires ValidPlace(p) && p.volume.Root? && BackslashFree(Spell(p)) && AllSepFree(segments)
    ensures IsUnc(JoinText(Spell(p), segments, Posix)) <==>
      && p.segments == [] && |segments| >= 2
      && segments[0] != "" && segments[0][0] != '?' && segments[0][0] != '.' && segments[1] != ""
  {
    hide RunEnd, Join;
    var base, text := Spell(p), JoinText(Spell(p), segments, Posix);
    if p.segments != [] {
      assert IsPlain(p.segments[0]);
      JoinFirst(p.segments, "/");
      assert base[1] == p.segments[0][0] && base[1] in base && p.segments[0][0] in p.segments[0];
      if segments == [] { JoinNothing(base, Posix); } else { JoinTextIs(base, segments, Posix); }
      assert text[1] == base[1];
    } else {
      EmptyJoin("/");
      assert base == "/";
      if segments == [] { JoinNothing(base, Posix); } else { RootJoinText(segments, text); }
    }
  }

  /** Joining `a` and `b` onto the POSIX root answers the share `b` of the server `a`, a Windows path. */
  lemma RootJoinExample()
    ensures HostPathJoin("/", ["a", "b"]) == Some("\\\\a\\b\\")
    ensures PlaceOf("/") == Some(Place(Root, [])) && Spell(Appended(Place(Root, []), ["a", "b"])) == "/a/b"
  {
    hide RunEnd, Split, Collapse, Join, NormalizeHostPath, IsUnc;
    RootIsPlain();
    JoinTwo("a", "b");
    JoinTextIs("/", ["a", "b"], Posix);
    var text := "\\\\" + "a" + "\\" + "b" + "\\";
    var joined := JoinText("/", ["a", "b"], Posix);
    assert joined == "//a/b";
    RunEndIs(joined, 2, 3);
    RunEndIs(joined, 4, 5);
    assert IsUnc(joined) by { UncExample(joined); }
    NormalizeSpellsPlace(joined);
    SplitOfPiece("", '\\');
    assert Unify(joined)[5..] == "";
    CollapseBlanks([]);
    assert [""] + [] == [""];
    EmptyJoin("\\");
    CollapseOfPlain(["a", "b"]);
    assert [] + ["a", "b"] == ["a", "b"];
    assert Server(joined) == "a" && Share(joined) == "b";
    assert PlaceOf(joined) == Some(Place(Unc("a", "b"), []));
    assert Spell(Place(Unc("a", "b"), [])) == text;
    assert text == "\\\\a\\b\\";
    assert HostPathJoin("/", ["a", "b"]) == NormalizeHostPath(joined);
  }

  lemma UncExample(text: string)
    requires text == "//a/b" && RunEnd(text, 2) == 3
    ensures IsUnc(text)
  {
  }

  lemma RootJoinText(segments: seq<string>, text: string)
    requires segments != [] && AllSepFree(segments) && text == JoinText("/", segments, Posix)
    ensures IsUnc(text) <==>
      |segments| >= 2 && segments[0] != "" && segments[0][0] != '?' && segments[0][0] != '.' && segments[1] != ""
  {
    hide RunEnd, Join, JoinText;
    JoinTextIs("/", segments, Posix);
    var s, e := segments[0], 2 + |segments[0]|;
    JoinHead(segments, "/");
    assert SepFree(s);
    var rest := if |segments| == 1 then "" else "/" + Join(segments[1..], "/");
    assert text == "//" + s + rest;
    assert forall k :: 2 <= k < e ==> text[k] == s[k - 2];
    assert rest != "" ==> text[e] == '/';
    assert RunEnd(text, 2) == e;
    if |segments| >= 2 {
      var next := Join(segments[1..], "/");
      JoinHead(segments[1..], "/");
      assert SepFree(segments[1]);
      assert e + 1 < |text| ==> text[e + 1] == next[0];
      if segments[1] == "" {
        assert next == "" || next[0] == '/';
      } else {
        assert next[0] == segments[1][0];
      }
    }
  }

  lemma JoinHead(pieces: seq<string>, sep: string)
    requires pieces != []
    ensures Join(pieces, sep) == pieces[0] + if |pieces| == 1 then "" else sep + Join(pieces[1..], sep)
  {
  }

  /** Going into a folder and back by `..` is no detour: it changes neither the normal form nor what contains the path. */
  lemma DetourIsNothing(a: string, x: string, b: string, root: string, lower: char -> char)
    requires IsPlain(x) && '/' !in x
    requires HostPathKind(a + "/" + x + "/../" + b) == HostPathKind(a + "/" + b) == Some(Posix)
    ensures NormalizeHostPath(a + "/" + x + "/../" + b) == NormalizeHostPath(a + "/" + b)
    ensures HostPathWithin(a + "/" + x + "/../" + b, root, lower) <==> HostPathWithin(a + "/" + b, root, lower)
  {
    hide Split, Collapse, HostPathKind, Join;
    SplitAtSeparator(a, b, '/');
    SplitAtSeparator("..", b, '/');
    SplitOfPiece("..", '/');
    SplitOfPiece(x, '/');
    SplitAtSeparator(x, "../" + b, '/');
    SplitAtSeparator(a, x + "/../" + b, '/');
    assert a + "/" + x + "/../" + b == a + ['/'] + (x + "/../" + b);
    assert x + "/../" + b == x + ['/'] + ("../" + b);
    assert "../" + b == ".." + ['/'] + b && a + "/" + b == a + ['/'] + b;
    assert Split(a, '/') + ([x] + ([".."] + Split(b, '/'))) == Split(a, '/') + [x, ".."] + Split(b, '/');
    DotsCancel(Split(a, '/'), x, Split(b, '/'));
  }

  /**
   * Joining `..` goes to the parent, and stays at a root, exactly when the path's segments with `..` after them do not read as a server
   * and a share.
   */
  lemma DotsGoToParent(p: Place)
    requires ValidPlace(p) && !Misread(p)
    ensures var up := HostPathJoin(Spell(p), [".."]);
      (if p.segments == [] then up == Some(Spell(p)) else up == HostPathParent(Spell(p)) == Some(Spell(Front(p)))) <==>
      !(p.volume.Root? && ReadsAsUnc(p.segments + [".."]))
  {
    hide Split, Join, RunEnd, Collapse, IsUnc, IsDrive, PlaceOf, NormalizeHostPath, Spell, JoinText, HostPathParent, HostPathBasename,
         HostPathKind, ValidPlace, Misread, ReadsAsUnc;
    SpellRoundTrip(p);
    KindMatchesPlace(Spell(p));
    JoinAppends(Spell(p), [".."]);
    ParentAndBasename(p);
    DotsAtEnd(p);
    if p.volume.Root? { DotsJoinText(p); }
  }

  lemma DotsAtEnd(p: Place)
    requires ValidPlace(p)
    ensures Collapse(p.segments + [".."]) == if p.segments == [] then [] else Front(p).segments
  {
    hide Collapse;
    if p.segments == [] {
      assert [".."] + [] == p.segments + [".."];
      DotsStopAtVolume([]);
      CollapseOfPlain([]);
    } else {
      var last := p.segments[|p.segments| - 1];
      var front := Front(p).segments;
      assert IsPlain(last);
      assert p.segments + [".."] == front + [last, ".."] + [] && front + [] == front;
      DotsCancel(front, last, []);
      CollapseOfPlain(front);
    }
  }

  lemma DotsJoinText(p: Place)
    requires ValidPlace(p) && p.volume.Root?
    ensures IsUnc(JoinText(Spell(p), [".."], Posix)) <==> ReadsAsUnc(p.segments + [".."])
  {
    hide RunEnd, Join, JoinText, IsUnc, NamesShare, NamesServer;
    var all, text := p.segments + [".."], JoinText(Spell(p), [".."], Posix);
    JoinTextIs(Spell(p), [".."], Posix);
    JoinOne("..", "/");
    UncIs(text);
    if p.segments == [] {
      EmptyJoin("/");
      assert Spell(p) == "/" && text == "/" + "/" + "..";
      assert text[2..] == "..";
      DotsNameNothing(text[2..]);
      assert all[0] == "..";
    } else {
      PlacesAreNamed(p);
      JoinConcat(p.segments, [".."], "/");
      assert text == "/" + Join(all, "/");
      MisreadSegments(all, text);
    }
  }

  lemma DotsNameNothing(s: string)
    requires s != "" && s[0] == '.'
    ensures !NamesShare(s)
  {
  }

  /** `/srv/app/../../etc` is `/etc`, and not within `/srv/app`. */
  lemma DotsExample(lower: char -> char)
    requires KeepsSeparator(lower)
    ensures NormalizeHostPath("/srv/app/../../etc") == Some("/etc") && !HostPathWithin("/srv/app/../../etc", "/srv/app", lower)
  {
    hide Split, Collapse, Join, RunEnd, NormalizeHostPath, HostPathWithin, Contains, Stable, IsUnc, KeepsSeparator;
    var path, root := "/srv/app/../../etc", "/srv/app";
    DotsExampleSegments();
    assert HostPathKind(path) == Some(Posix) && HostPathKind(root) == Some(Posix) by { SecondIsNoUnc(path); SecondIsNoUnc(root); }
    NormalizeSpellsPlace(path);
    JoinOne("etc", "/");
    assert Spell(Place(Root, ["etc"])) == "" + "/" + "etc" == "/etc";
    BackslashFreeIsStable(path);
    BackslashFreeIsStable(root);
    WithinMeansContains(path, root, lower);
    NotContained(Place(Root, ["srv", "app"]), Place(Root, ["etc"]), lower);
  }

  lemma NotContained(outer: Place, inner: Place, lower: char -> char)
    requires outer.volume.Root? && inner.volume.Root? && |outer.segments| > |inner.segments|
    ensures !Contains(outer, inner, lower)
  {
  }

  lemma SecondIsNoUnc(text: string)
    requires |text| >= 2 && !IsSep(text[1])
    ensures !IsUnc(text)
  {
  }

  lemma DotsExampleSegments()
    ensures Collapse(Split("/srv/app/../../etc", '/')) == ["etc"]
    ensures Collapse(Split("/srv/app", '/')) == ["srv", "app"]
  {
    hide Split, Collapse, Join;
    var pieces := ["", "srv", "app", "..", "..", "etc"];
    JoinFour("app", "..", "..", "etc");
    JoinHead(pieces, "/");
    JoinHead(pieces[1..], "/");
    assert pieces[1..][1..] == ["app", "..", "..", "etc"];
    assert Join(pieces, "/") == "/srv/app/../../etc";
    SplitJoin(pieces, '/');
    assert pieces == [] + [""] + pieces[1..] && pieces[1..] == [] + pieces[1..];
    BlanksDropOut([], "", pieces[1..]);
    assert pieces[1..] == ["srv"] + ["app", ".."] + ["..", "etc"];
    DotsCancel(["srv"], "app", ["..", "etc"]);
    assert ["srv"] + ["..", "etc"] == [] + ["srv", ".."] + ["etc"] && [] + ["etc"] == ["etc"];
    DotsCancel([], "srv", ["etc"]);
    CollapseOfPlain(["etc"]);
    var root := ["", "srv", "app"];
    assert root[1..] == ["srv", "app"];
    JoinHead(root, "/");
    JoinTwo("srv", "app");
    SplitJoin(root, '/');
    assert Join(root, "/") == "/srv/app";
    assert root == [""] + ["srv", "app"];
    CollapseBlanks(["srv", "app"]);
    CollapseOfPlain(["srv", "app"]);
  }

  /** Joined onto the POSIX root, the path's one segment would read as a server and a share. */
  predicate LoneShare(p: Place) {
    p.volume.Root? && |p.segments| == 1 && NamesShare(p.segments[0])
  }

  /**
   * Joining the parent of a normalized path with its basename gives the path back, exactly when the path is not a folder of the POSIX
   * root whose name holds a server, a backslash and a share; and the parent always contains the path.
   */
  lemma ParentJoinsBack(p: Place, lower: char -> char)
    requires ValidPlace(p) && !Misread(p) && p.segments != [] && KeepsSeparator(lower)
    ensures var path := Spell(p);
      && HostPathParent(path).Some?
      && (HostPathJoin(HostPathParent(path).value, [HostPathBasename(path)]) == Some(path) <==> !LoneShare(p))
      && HostPathWithin(path, HostPathParent(path).value, lower)
  {
    hide Split, Join, RunEnd, Collapse, IsUnc, IsDrive, PlaceOf, NormalizeHostPath, Spell, JoinText, HostPathParent, HostPathBasename,
         HostPathWithin, HostPathKind, KeepsSeparator, SepFree, VolumePieces, NamesShare, Stable, ValidPlace, Misread;
    var front, last := Front(p), p.segments[|p.segments| - 1];
    ParentAndBasename(p);
    FrontIsStable(p);
    SpellRoundTrip(p);
    SpellRoundTrip(front);
    KindMatchesPlace(Spell(front));
    LastFits(p);
    StableExactly(Spell(p));
    StableExactly(Spell(front));
    assert front.segments + [last] == p.segments;
    ValidSegmentsCollapse(p);
    JoinAppends(Spell(front), [last]);
    if p.volume.Root? { FrontJoinText(p); }
    WithinMeansContains(Spell(p), Spell(front), lower);
    FoldedFront(p, lower);
  }

  lemma ValidSegmentsCollapse(p: Place)
    requires ValidPlace(p)
    ensures Collapse(p.segments) == p.segments
  {
    CollapseOfPlain(p.segments);
  }

  lemma LastFits(p: Place)
    requires ValidPlace(p) && p.segments != []
    ensures SegmentsFit([p.segments[|p.segments| - 1]], KindOf(p.volume))
  {
  }

  /** The text joined from a POSIX path's parent and basename: the path itself, or for a folder of the root its name after `//`. */
  lemma FrontJoinText(p: Place)
    requires ValidPlace(p) && p.volume.Root? && p.segments != [] && !Misread(p)
    ensures IsUnc(JoinText(Spell(Front(p)), [p.segments[|p.segments| - 1]], Posix)) <==> LoneShare(p)
  {
    hide RunEnd, IsUnc, NamesShare, Join, JoinText;
    var last := p.segments[|p.segments| - 1];
    JoinTextIs(Spell(Front(p)), [last], Posix);
    JoinOne(last, "/");
    SpellSplitsLast(p);
    if |p.segments| == 1 {
      EmptyJoin("/");
      assert Front(p).segments == [] && Spell(Front(p)) == "/";
      var text := JoinText(Spell(Front(p)), [last], Posix);
      assert text == "/" + "/" + last;
      assert text[2..] == last;
      UncIs(text);
    } else {
      assert JoinText(Spell(Front(p)), [last], Posix) == Spell(p);
    }
  }

  /** The folder `/a\\b` of the POSIX root: joined back from its parent it reads as the share `b` of the server `a`. */
  lemma LoneShareExample()
    ensures var p := Place(Root, ["a\\b"]); ValidPlace(p) && !Misread(p) && LoneShare(p) && Spell(p) == "/a\\b"
  {
    hide RunEnd;
    var p := Place(Root, ["a\\b"]);
    RunEndIs("a\\b", 0, 1);
    MisreadExactly(p);
  }

  lemma FoldedFront(p: Place, lower: char -> char)
    requires p.segments != []
    ensures Contains(Front(p), p, lower)
  {
  }
}
