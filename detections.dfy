/** What the object detector hands to the rest of the system: one record per
    candidate region (`{box, label, confidence}` in object_detector.py). */
module Detections {

  /** `[x1, y1, x2, y2]` in the coordinates of the source image. */
  datatype Box = Box(x1: real, y1: real, x2: real, y2: real)

  /** `name` is the `label` field: the detector's class name, already lower-cased by the detector. */
  datatype Detection = Detection(box: Box, name: string, confidence: real)
}
