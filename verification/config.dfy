/** The process-wide `native_config_t` record read by the file-status hook, and the
    managed configuration object `load_config` copies it from. */
module Config {

  /** `native_config_t`: the two switches the interceptors consult. */
  datatype NativeConfig = NativeConfig(disableBitmoji: bool, disableMetrics: bool)

  /** The record `init` allocates: both switches off. */
  const Default: NativeConfig := NativeConfig(false, false)

  /** The managed `NativeConfig` object: its `disableBitmoji` and `disableMetrics` fields. */
  datatype ConfigObject = ConfigObject(disableBitmoji: bool, disableMetrics: bool)

  /** `load_config`: both fields of the record are overwritten from the managed object;
      nothing of the previous record survives. */
  function Load(current: NativeConfig, obj: ConfigObject): (r: NativeConfig)
    ensures r.disableBitmoji == obj.disableBitmoji
    ensures r.disableMetrics == obj.disableMetrics
  {
    current.(disableBitmoji := obj.disableBitmoji, disableMetrics := obj.disableMetrics)
  }

  /** Loading forgets the previous record, so a second load decides everything. */
  lemma LoadForgetsPrevious(a: NativeConfig, b: NativeConfig, obj: ConfigObject, obj2: ConfigObject)
    ensures Load(a, obj) == Load(b, obj)
    ensures Load(Load(a, obj), obj2) == Load(a, obj2)
  {
  }
}
