/** Media dispatch by file extension: the suffix test `pTrack.load`
    applies to a path before routing it to image or video processing. */
module Dispatch {
  import opened Wrappers
  import opened Paths

  /** Extensions routed to image processing, lower-case. */
  const ImageExtensions: seq<string> := [".jpg", ".jpeg", ".png"]

  /** Extensions routed to video processing, lower-case. */
  const VideoExtensions: seq<string> := [".mp4", ".avi", ".mov"]

  datatype MediaKind = ImageFile | VideoFile

  /** The path, once lower-cased, ends with one of `extensions`. */
  predicate HasExtension(path: string, extensions: seq<string>) {
    exists e :: e in extensions && EndsWith(ToLower(path), e)
  }

  /** No string ends with both an image and a video extension. */
  lemma ExtensionsExclusive(s: string)
    ensures !(EndsWithAny(s, ImageExtensions) && EndsWithAny(s, VideoExtensions))
  {
    if i, j :| 0 <= i < |ImageExtensions| && EndsWith(s, ImageExtensions[i])
             && 0 <= j < |VideoExtensions| && EndsWith(s, VideoExtensions[j]) {
      EndsWithNested(s, ImageExtensions[i], VideoExtensions[j]);
      assert false;
    }
  }

  lemma EndsWithAnyIsHasExtension(path: string, extensions: seq<string>)
    ensures EndsWithAny(ToLower(path), extensions) <==> HasExtension(path, extensions)
  {
  }

  /** Classifies a path by its case-insensitive suffix: image extensions are
      tested first, then video extensions; anything else is unsupported
      (`None`). Because the two lists share no suffix, the order of the
      tests does not matter. */
  function Classify(path: string): (r: Option<MediaKind>)
    ensures r == Some(ImageFile) <==> HasExtension(path, ImageExtensions)
    ensures r == Some(VideoFile) <==> HasExtension(path, VideoExtensions)
    ensures r == None <==> !HasExtension(path, ImageExtensions) && !HasExtension(path, VideoExtensions)
  {
    EndsWithAnyIsHasExtension(path, ImageExtensions);
    EndsWithAnyIsHasExtension(path, VideoExtensions);
    ExtensionsExclusive(ToLower(path));
    var lower := ToLower(path);
    if EndsWithAny(lower, ImageExtensions) then Some(ImageFile)
    else if EndsWithAny(lower, VideoExtensions) then Some(VideoFile)
    else None
  }

  /** Classification ignores the case of every letter in the path. */
  lemma ClassifyIgnoresCase(p: string, q: string)
    requires EqualIgnoringCase(p, q)
    ensures Classify(p) == Classify(q)
  {
    ToLowerIgnoresCase(p, q);
    assert ToLower(p) == ToLower(q);
  }

  /** Classifying a path and classifying its lower-case form agree. */
  lemma ClassifyOfLower(p: string)
    ensures Classify(ToLower(p)) == Classify(p)
  {
  }

  /** Any stem followed by an image extension, written in any case, is an image. */
  lemma ImageSuffixRoutesToImage(stem: string, ext: string)
    requires ToLower(ext) in ImageExtensions
    ensures Classify(stem + ext) == Some(ImageFile)
  {
  }

  /** Any stem followed by a video extension, written in any case, is a video. */
  lemma VideoSuffixRoutesToVideo(stem: string, ext: string)
    requires ToLower(ext) in VideoExtensions
    ensures Classify(stem + ext) == Some(VideoFile)
  {
  }

  /** An upper-case image extension under a directory prefix. */
  lemma ClassifyUpperCaseImage()
    ensures Classify("input/2_4CCPW.JPG") == Some(ImageFile)
  {
    var ext := ".JPG";
    assert ToLower(ext)[1] == LowerChar('J') == 'j';
    assert ToLower(ext)[2] == LowerChar('P') == 'p';
    assert ToLower(ext)[3] == LowerChar('G') == 'g';
    assert ToLower(ext) == ".jpg";
    ImageSuffixRoutesToImage("input/2_4CCPW", ext);
    assert "input/2_4CCPW" + ".JPG" == "input/2_4CCPW.JPG";
  }

  lemma LowerMovExtension()
    ensures ToLower(".Mov") == ".mov"
  {
    assert ToLower(".Mov")[1] == LowerChar('M') == 'm';
  }

  /** A mixed-case video extension. */
  lemma ClassifyMixedCaseVideo()
    ensures Classify("clip.Mov") == Some(VideoFile)
  {
    var p := "clip.Mov";
    assert p == p[..4] + p[4..];
    assert p[4..] == ".Mov";
    LowerMovExtension();
    VideoSuffixRoutesToVideo(p[..4], p[4..]);
  }

  /** A text file is unsupported. */
  lemma ClassifyTextFile()
    ensures Classify("notes.txt") == None
  {
    assert ToLower("notes.txt") == "notes.txt";
  }
}
