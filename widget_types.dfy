/** The widget's configuration record. */
module WidgetTypes {
  import opened Wrappers

  /**
   * The configuration passed by the host page.
   * - `provider` holds whether `params.provider` is truthy.
   * - `modules` is `None` only when it is `undefined`; otherwise it holds the
   *   text `JSON.stringify` gives for it, so `null` is `Some("null")`.
   * - `networks` is `None` when it is `undefined` or `null`; otherwise it holds
   *   the JSON text of the caller's flag object.
   * - `theme`, `buttonColor` and `logo` are `None` when they are `undefined`
   *   or `null`.
   */
  datatype WidgetConfig = WidgetConfig(
    appCode: string,
    provider: bool,
    assets: seq<string>,
    modules: Option<string>,
    networks: Option<string>,
    theme: Option<string>,
    buttonColor: Option<string>,
    logo: Option<string>)
}
