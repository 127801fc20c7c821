/** What the kernel code says about an image, and the CUDA compatibility rule
    (src/kernels/fatbin.h, src/kernels/fatbin.cpp:148-155). */
module Images {
  datatype Image = Image(
    isPtx: bool,
    arch: nat,
    compressed: bool,
    headerOffset: nat,
    payloadOffset: nat,
    payloadSize: nat,
    compressedSize: nat,
    decompressedSize: nat)

  datatype Report = Report(images: nat, sourceArch: nat, alreadyRunnable: bool, native: bool)

  const NO_REPORT := Report(0, 0, false, false)

  // SM numbers are major * 10 + minor. PTX runs on its own architecture or a newer
  // one, machine code within its major version on the same or a newer minor.
  predicate CanRun(isPtx: bool, image: nat, device: nat)
  {
    if image == 0 || device == 0 then false
    else if isPtx then image <= device
    else image / 10 == device / 10 && image <= device
  }

  // Of an image for SM major.minor and a GPU of another: PTX needs the GPU to be no older, and
  // machine code needs it to be of the same major and no smaller minor. 0 is no architecture.
  lemma CanRunIs(isPtx: bool, major: nat, minor: nat, deviceMajor: nat, deviceMinor: nat)
    requires minor < 10 && deviceMinor < 10 && major > 0 && deviceMajor > 0
    ensures CanRun(isPtx, 10 * major + minor, 10 * deviceMajor + deviceMinor) <==>
            if isPtx then major < deviceMajor || (major == deviceMajor && minor <= deviceMinor)
            else major == deviceMajor && minor <= deviceMinor
    ensures !CanRun(isPtx, 0, 10 * deviceMajor + deviceMinor) && !CanRun(isPtx, 10 * major + minor, 0)
  {
    assert (10 * major + minor) / 10 == major && (10 * deviceMajor + deviceMinor) / 10 == deviceMajor;
  }
}
