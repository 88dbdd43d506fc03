/** The values the translate route exchanges with its caller and its log. */
module Records {
  import opened Wrappers

  /**
   * The audit record kept for one successful translation. `output` is
   * `None` when the provider's first translation carried no
   * `translatedText`: the record then holds `undefined` there.
   */
  datatype TranslationRecord = TranslationRecord(
    timestamp: string,
    requestId: string,
    input: string,
    output: Option<string>,
    target: string)
}
