/** Plan configuration and status of the FIR interface. */
module FirPlanConfig {
  import opened Wrappers

  datatype Status = Ok | NullPointer | InvalidArgument | UnsupportedConfig | BackendError

  /** `taps` is `None` for a null pointer. */
  datatype Config<T> = Config(taps: Option<seq<T>>, blockSize: nat, batch: nat)

  predicate InvalidCommon<T>(cfg: Config<T>) {
    cfg.taps.None? || cfg.taps.value == [] || cfg.blockSize == 0 || cfg.batch == 0
  }
}
