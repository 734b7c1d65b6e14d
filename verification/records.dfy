/** The records the tracker produces: one per processed image, one per
    sampled video frame. */
module Records {

  /** The result of processing one image: its base file name, its decimal
      GPS position and the number of plastic detections. */
  datatype DetectionRecord = DetectionRecord(filename: string, latitude: real, longitude: real, plasticCount: nat)

  /** The result of one sampled video frame: its 1-based position in the
      video and the number of plastic detections in it. */
  datatype FrameRecord = FrameRecord(frame: nat, plasticCount: nat)
}
