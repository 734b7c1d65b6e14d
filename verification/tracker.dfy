/** The tracker's entry point, `load`: reject a path that is not an existing
    file, then dispatch on the path's extension to image or video processing,
    or fail with "Unsupported file type". The file system, the EXIF reader,
    the decoder and the detector are inputs: `Media` describes what they
    report for the path. */
module Tracker {
  import opened Wrappers
  import opened Paths
  import opened Dispatch
  import opened Detections
  import opened Gps
  import opened Records
  import opened Images
  import opened Video

  /** What the outside world reports for one path: whether it is an existing
      regular file, its EXIF view and detector output when read as an image,
      and its decoded frames when read as a video. */
  datatype Media<F> = Media(isFile: bool, exif: ExifImage, imageDetections: seq<Detection>, frames: seq<F>)

  datatype LoadError = InvalidFilePath(path: string) | UnsupportedFileType

  datatype Loaded = ImageLoaded(run: ImageRun) | VideoLoaded(records: seq<FrameRecord>)

  function Load<F>(path: string, media: Media<F>, detect: F -> seq<Detection>): (r: Result<Loaded, LoadError>)
    ensures !media.isFile ==> r == Failure(InvalidFilePath(path))
    ensures r == Failure(UnsupportedFileType) <==>
              media.isFile && !HasExtension(path, ImageExtensions) && !HasExtension(path, VideoExtensions)
    ensures r.Success? && r.value.ImageLoaded? <==> media.isFile && HasExtension(path, ImageExtensions)
    ensures r.Success? && r.value.VideoLoaded? <==> media.isFile && HasExtension(path, VideoExtensions)
    ensures r.Success? && r.value.ImageLoaded? ==>
              r.value.run == ProcessImage(path, media.exif, media.imageDetections)
    ensures r.Success? && r.value.VideoLoaded? ==>
              r.value.records == Sampled(media.frames, detect)
  {
    if !media.isFile then Failure(InvalidFilePath(path))
    else match Classify(path)
      case Some(ImageFile) => Success(ImageLoaded(ProcessImage(path, media.exif, media.imageDetections)))
      case Some(VideoFile) => Success(VideoLoaded(Sampled(media.frames, detect)))
      case None => Failure(UnsupportedFileType)
  }

  /** Whether a path is accepted, and as which kind, does not depend on the
      case of its letters. */
  lemma LoadOutcomeIgnoresCase<F>(p: string, q: string, media: Media<F>, detect: F -> seq<Detection>)
    requires EqualIgnoringCase(p, q)
    ensures Load(p, media, detect).Success? <==> Load(q, media, detect).Success?
    ensures Load(p, media, detect).Success? ==>
              (Load(p, media, detect).value.ImageLoaded? <==> Load(q, media, detect).value.ImageLoaded?)
  {
    ClassifyIgnoresCase(p, q);
  }
}
