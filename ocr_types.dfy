/** Records shared by the engine wrapper, the gallery and the screens. */
module OcrTypes {

  /**
   * One recognised text region: its text, confidence and oriented box
   * (centre, size and rotation in degrees). Floats are modelled as reals.
   */
  datatype OcrResult = OcrResult(
    text: string,
    confidence: real,
    centerX: real,
    centerY: real,
    width: real,
    height: real,
    angle: real)

  /** Timings of the last inference, in milliseconds, and frames per second. */
  datatype Benchmark = Benchmark(
    detectionTimeMs: real,
    recognitionTimeMs: real,
    totalTimeMs: real,
    fps: real)

  /** `Benchmark()`: every field 0. */
  const DefaultBenchmark: Benchmark := Benchmark(0.0, 0.0, 0.0, 0.0)
}
