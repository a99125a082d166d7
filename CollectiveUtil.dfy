// collective_util.Hints: the communication hints a caller may pass to a
// collective operation (pack size and timeout).
module CollectiveUtil {
  import opened Common
  import opened PyErrors

  /** A constructed Hints object. The timeout is a number of seconds or
      None. */
  datatype Hints = Hints(bytesPerPack: int, timeoutSeconds: Option<real>)

  /** Hints.__init__: a negative pack size raises ValueError; otherwise both
      arguments are recorded as given (a pack size of 0 means "choose
      automatically", a timeout of None means "no timeout"). */
  function MakeHints(bytesPerPack: int, timeoutSeconds: Option<real>): (r: PyResult<Hints>)
    ensures r.Raised? <==> bytesPerPack < 0
    ensures r.Raised? ==> r.exc == ValueError
    ensures r.Returned? ==> r.value.bytesPerPack == bytesPerPack && r.value.timeoutSeconds == timeoutSeconds
  {
    if bytesPerPack < 0 then Raised(ValueError) else Returned(Hints(bytesPerPack, timeoutSeconds))
  }

  /** Hints() with the default arguments: no packing preference and no
      timeout. */
  function DefaultHints(): (r: PyResult<Hints>)
    ensures r == Returned(Hints(0, None))
  {
    MakeHints(0, None)
  }

  /** Every Hints object that construction returns has a non-negative pack
      size, and a valid pair of fields is reproduced exactly by constructing
      from them again. */
  lemma ConstructedHintsValid(bytesPerPack: int, timeoutSeconds: Option<real>)
    requires MakeHints(bytesPerPack, timeoutSeconds).Returned?
    ensures var h := MakeHints(bytesPerPack, timeoutSeconds).value;
            h.bytesPerPack >= 0 && MakeHints(h.bytesPerPack, h.timeoutSeconds) == Returned(h)
  {
  }
}
