/** Hardware accelerators for inference and their stored integer codes. */
module Accelerators {

  /** NPU is deprecated: it is still listed, but its code reads back as GPU. */
  datatype AcceleratorType = GPU | CPU | NPU

  /** The integer code saved in preferences and passed to the native engine. */
  function Value(t: AcceleratorType): (v: int)
    ensures 0 <= v <= 2
  {
    match t
    case GPU => 0
    case CPU => 1
    case NPU => 2
  }

  /** Decode a stored code; every unknown code falls back to GPU. */
  function FromValue(v: int): (t: AcceleratorType)
    ensures t != NPU
    ensures t == CPU <==> v == 1
    ensures v == 0 ==> t == GPU
  {
    if v == 1 then CPU else GPU
  }

  /** GPU and CPU survive a save and reload of their code. */
  lemma FromValueRoundTrip(t: AcceleratorType)
    requires t != NPU
    ensures FromValue(Value(t)) == t
  {
  }

  /** NPU never round-trips: its code 2 is read back as GPU. */
  lemma NpuDoesNotRoundTrip()
    ensures Value(NPU) == 2 && FromValue(Value(NPU)) == GPU
  {
  }

  /** The three codes are distinct, so the code determines the accelerator. */
  lemma ValueInjective(a: AcceleratorType, b: AcceleratorType)
    ensures Value(a) == Value(b) ==> a == b
  {
  }
}
