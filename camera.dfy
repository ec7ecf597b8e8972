/**
 * `Camera.setupVideoDimensions` of src/lib/camera.ts: the video element is
 * resized so that its shorter side is `VIDEO_PIXELS` and its aspect ratio is
 * the stream's.
 */
module VideoCamera {

  /** `VIDEO_PIXELS`, the length the shorter side of the element is set to. */
  const VideoPixels: real := 224.0

  /** The `width` and `height` of an `HTMLVideoElement`. */
  class VideoElement {
    var width: real
    var height: real

    constructor (width: real, height: real)
      ensures this.width == width && this.height == height
    {
      this.width := width;
      this.height := height;
    }
  }

  datatype Size = Size(width: real, height: real)

  /**
   * The element size setupVideoDimensions chooses for a `width` x `height`
   * stream: the shorter side becomes `VIDEO_PIXELS`, the longer side keeps the
   * stream's aspect ratio and so is at least `VIDEO_PIXELS`.
   */
  function FitDimensions(width: real, height: real): (s: Size)
    requires width > 0.0 && height > 0.0
    ensures s.height > 0.0 && s.width / s.height == width / height
    ensures width >= height ==> s.height == VideoPixels && s.width >= VideoPixels
    ensures width < height ==> s.width == VideoPixels && s.height > VideoPixels
  {
    var aspectRatio := width / height;
    if width >= height then
      Size(aspectRatio * VideoPixels, VideoPixels)
    else
      var h := VideoPixels / aspectRatio;
      assert h * aspectRatio == VideoPixels;
      assert h > VideoPixels by {
        assert aspectRatio < 1.0;
      }
      Size(VideoPixels, h)
  }

  class Camera {
    const videoElement: VideoElement
    var aspectRatio: real

    /** The camera starts with `aspectRatio` 0 and the element it was given. */
    constructor (videoElement: VideoElement)
      ensures this.videoElement == videoElement && aspectRatio == 0.0
    {
      this.videoElement := videoElement;
      aspectRatio := 0.0;
    }

    /**
     * Records the stream's aspect ratio and sizes the element: height 224
     * and width `aspectRatio * 224` for a landscape or square stream, width
     * 224 and height `224 / aspectRatio` for a portrait one.
     */
    method SetupVideoDimensions(width: real, height: real)
      requires width > 0.0 && height > 0.0
      modifies this, videoElement
      ensures aspectRatio == width / height
      ensures width >= height ==> videoElement.height == VideoPixels && videoElement.width == aspectRatio * VideoPixels
      ensures width < height ==> videoElement.width == VideoPixels && videoElement.height == VideoPixels / aspectRatio
      ensures Size(videoElement.width, videoElement.height) == FitDimensions(width, height)
    {
      aspectRatio := width / height;
      if width >= height {
        videoElement.height := VideoPixels;
        videoElement.width := aspectRatio * VideoPixels;
      } else {
        videoElement.width := VideoPixels;
        videoElement.height := VideoPixels / aspectRatio;
      }
    }
  }
}
