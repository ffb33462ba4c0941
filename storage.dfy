/**
 * The video-extension rule of the blob-store gateway and the filtering part of
 * `ListVideos` (internal/infrastructure/storage/s3_service.go).
 */
module Storage {
  import opened Wrappers
  import opened FilePath

  /** The seven accepted extensions, lower-case, in the order the source lists them. */
  const VideoExtensions: seq<string> := [".mp4", ".avi", ".mov", ".mkv", ".wmv", ".flv", ".webm"]

  /** `isVideoFile`: the lower-cased final extension is one of the seven. */
  predicate IsVideoFile(filename: string): (ok: bool)
    ensures ok ==> Ext(filename) != ""
  {
    Lower(Ext(filename)) in VideoExtensions
  }

  /** The keys that satisfy `keep`, in their original order. */
  function Filter(keys: seq<string>, keep: string -> bool): seq<string> {
    if keys == [] then []
    else
      var last := keys[|keys| - 1];
      Filter(keys[..|keys| - 1], keep) + (if keep(last) then [last] else [])
  }

  /** The listed keys that are videos, in listing order. */
  function VideoKeys(keys: seq<string>): seq<string> {
    Filter(keys, IsVideoFile)
  }

  /**
   * `ListVideos`: a listing error is passed through; otherwise the keys are
   * scanned in order and the video ones appended.
   */
  method ListVideos(listing: Result<seq<string>, string>) returns (r: Result<seq<string>, string>)
    ensures listing.Failure? ==> r == Failure(listing.error)
    ensures listing.Success? ==> r == Success(VideoKeys(listing.value))
  {
    if listing.Failure? {
      return Failure(listing.error);
    }
    var keys := listing.value;
    var videos: seq<string> := [];
    for i := 0 to |keys|
      invariant videos == Filter(keys[..i], IsVideoFile)
    {
      assert keys[..i + 1][..i] == keys[..i];
      if IsVideoFile(keys[i]) {
        videos := videos + [keys[i]];
      }
    }
    assert keys[..|keys|] == keys;
    return Success(videos);
  }

  /** Exactly the keys satisfying the rule survive the filter. */
  lemma {:induction false} FilterMembers(keys: seq<string>, keep: string -> bool, k: string)
    ensures k in Filter(keys, keep) <==> k in keys && keep(k)
  {
    if keys != [] {
      var pre := keys[..|keys| - 1];
      FilterMembers(pre, keep, k);
      assert keys == pre + [keys[|keys| - 1]];
    }
  }

  /** Positions of the keys that satisfy `keep`. */
  function Positions(keys: seq<string>, keep: string -> bool): seq<nat> {
    if keys == [] then []
    else
      var n := |keys| - 1;
      Positions(keys[..n], keep) + (if keep(keys[n]) then [n] else [])
  }

  /** The filter keeps the original order: its result is the input read at
      strictly increasing positions, which are exactly the positions of the
      keys satisfying `keep`. */
  lemma {:induction false} FilterSubsequence(keys: seq<string>, keep: string -> bool)
    ensures var idx := Positions(keys, keep);
      && |idx| == |Filter(keys, keep)|
      && (forall j :: 0 <= j < |idx| ==> idx[j] < |keys| && keys[idx[j]] == Filter(keys, keep)[j])
      && (forall j, l :: 0 <= j < l < |idx| ==> idx[j] < idx[l])
      && (forall i :: 0 <= i < |keys| ==> (i in idx <==> keep(keys[i])))
  {
    FilterContents(keys, keep);
    FilterPositions(keys, keep);
  }

  /** Key `j` of the result is the input's key at collected position `j`. */
  lemma {:induction false} FilterContents(keys: seq<string>, keep: string -> bool)
    ensures var idx := Positions(keys, keep);
      && |idx| == |Filter(keys, keep)|
      && (forall j :: 0 <= j < |idx| ==> idx[j] < |keys| && keys[idx[j]] == Filter(keys, keep)[j])
  {
    if keys != [] {
      var n := |keys| - 1;
      var pre := keys[..n];
      FilterContents(pre, keep);
      var idx0, vk0 := Positions(pre, keep), Filter(pre, keep);
      var idx, vk := Positions(keys, keep), Filter(keys, keep);
      assert idx == idx0 + if keep(keys[n]) then [n] else [];
      assert vk == vk0 + if keep(keys[n]) then [keys[n]] else [];
      assert forall j :: 0 <= j < |idx0| ==> idx[j] == idx0[j] && vk[j] == vk0[j] && keys[idx0[j]] == pre[idx0[j]];
    }
  }

  /** The positions collected increase strictly and are exactly those whose key satisfies `keep`. */
  lemma {:induction false} FilterPositions(keys: seq<string>, keep: string -> bool)
    ensures var idx := Positions(keys, keep);
      && (forall j :: 0 <= j < |idx| ==> idx[j] < |keys|)
      && (forall j, l :: 0 <= j < l < |idx| ==> idx[j] < idx[l])
      && (forall i :: 0 <= i < |keys| ==> (i in idx <==> keep(keys[i])))
  {
    if keys != [] {
      var n := |keys| - 1;
      var pre := keys[..n];
      FilterPositions(pre, keep);
      var idx0, idx := Positions(pre, keep), Positions(keys, keep);
      assert idx == idx0 + if keep(keys[n]) then [n] else [];
      assert forall j :: 0 <= j < |idx0| ==> idx[j] == idx0[j];
      forall i | 0 <= i < n
        ensures keys[i] == pre[i]
      {
      }
    }
  }

  /** The filter never lengthens its input. */
  lemma {:induction false} FilterShorter(keys: seq<string>, keep: string -> bool)
    ensures |Filter(keys, keep)| <= |keys|
  {
    if keys != [] {
      FilterShorter(keys[..|keys| - 1], keep);
    }
  }

  /** `ListVideos` returns exactly the listed video keys, in listing order and
      each as often as it is listed, and no more keys than listed. */
  lemma VideoKeysSpec(keys: seq<string>)
    ensures forall k :: k in VideoKeys(keys) <==> k in keys && IsVideoFile(k)
    ensures |VideoKeys(keys)| <= |keys|
    ensures var idx := Positions(keys, IsVideoFile);
      && |idx| == |VideoKeys(keys)|
      && (forall j :: 0 <= j < |idx| ==> idx[j] < |keys| && keys[idx[j]] == VideoKeys(keys)[j])
      && (forall j, l :: 0 <= j < l < |idx| ==> idx[j] < idx[l])
      && (forall i :: 0 <= i < |keys| ==> (i in idx <==> IsVideoFile(keys[i])))
  {
    forall k ensures k in VideoKeys(keys) <==> k in keys && IsVideoFile(k) {
      FilterMembers(keys, IsVideoFile, k);
    }
    FilterShorter(keys, IsVideoFile);
    FilterSubsequence(keys, IsVideoFile);
  }

  /** The rule is case-insensitive: a name and its lower-cased form agree. */
  lemma IsVideoFileIgnoresCase(f: string)
    ensures IsVideoFile(Lower(f)) == IsVideoFile(f)
  {
    ExtLower(f);
    LowerIdempotent(Ext(f));
  }

  /** A directory prefix does not change the verdict. */
  lemma IsVideoFileIgnoresDirectory(dir: string, name: string)
    requires '/' !in name
    ensures IsVideoFile(dir + "/" + name) == IsVideoFile(name)
  {
    ExtOfChild(dir, name);
  }

  /** Only the last extension counts: whatever precedes it, `s.x` is a video
      exactly when ".x" lower-cased is one of the seven. */
  lemma IsVideoFileLastExtension(s: string, x: string)
    requires '.' !in x && '/' !in x
    ensures IsVideoFile(s + "." + x) <==> Lower("." + x) in VideoExtensions
  {
    ExtOfDotSuffix(s, x);
  }

  /** A name with no dot is never a video. */
  lemma IsVideoFileNeedsDot(f: string)
    requires '.' !in f
    ensures !IsVideoFile(f)
  {
    ExtNoDot(f);
  }

  /** Any name ending in an upper-case ".MP4" is accepted. */
  lemma UpperCaseExtensionAccepted(stem: string)
    ensures IsVideoFile(stem + ".MP4")
  {
    var x := "MP4";
    IsVideoFileLastExtension(stem, x);
    assert stem + "." + x == stem + ".MP4";
    assert Lower("." + x) == ".mp4" == VideoExtensions[0];
  }

  /** Any name with a second extension after the video one is rejected ("file.mp4.backup"). */
  lemma TrailingExtensionRejected(stem: string)
    ensures !IsVideoFile(stem + ".mp4.backup")
  {
    var x := "backup";
    LongExtensionRejected(stem + ".mp4", x);
    assert stem + ".mp4" + "." + x == stem + ".mp4.backup";
  }

  /** A final extension longer than ".webm" is never a video extension. */
  lemma LongExtensionRejected(s: string, x: string)
    requires '.' !in x && '/' !in x && |x| > 4
    ensures !IsVideoFile(s + "." + x)
  {
    IsVideoFileLastExtension(s, x);
    assert |Lower("." + x)| > 5;
    assert forall e | e in VideoExtensions :: |e| <= 5;
  }

  /** Names without an extension are rejected. */
  lemma IsVideoFileExamplesRejected()
    ensures !IsVideoFile("") && !IsVideoFile("video") && !IsVideoFile("mp4") && !IsVideoFile("video.")
  {
    IsVideoFileNeedsDot("");
    IsVideoFileNeedsDot("video");
    IsVideoFileNeedsDot("mp4");
    assert "video." == "video" + "." + "";
    IsVideoFileLastExtension("video", "");
    assert "." + "" == ".";
    assert Lower(".") == ".";
  }
}
