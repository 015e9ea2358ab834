/**
 * `createWoopWidget`: the configuration is marshalled into the seven query
 * parameters of the iframe URL, and a host-side bridge answers the frame's
 * load event and its `CONNECT_WALLET` messages by querying the wallet
 * provider and posting a `WOOP_CONNECT` message into the frame.
 */
module WoopWidget {
  import opened Wrappers
  import opened JsStrings
  import opened FormUrlencoded
  import opened WidgetTypes

  /** The widget application's entry point (the development deployment). */
  const BaseUrl: string := "http://localhost:3000/widgetext"
  /** The only origin whose messages are heeded and the only target origin of posts. */
  const TrustedOrigin: string := "http://localhost:3000"
  const DefaultTheme: string := "light"
  const DefaultButtonColor: string := "#4B6BFB"
  /** What `JSON.stringify(undefined)` becomes once `URLSearchParams` turns it into a string. */
  const UndefinedText: string := "undefined"
  const EmptyObjectJson: string := "{}"
  const QueryNames: seq<string> := ["appCode", "assets", "modules", "networks", "theme", "buttonColor", "logo"]

  // ---------------------------------------------------------------------------
  // Query construction

  /** `value || fallback` for a string that may be undefined: `""` and undefined are the falsy cases. */
  function OrElse(value: Option<string>, fallback: string): (r: string)
    ensures value.Some? && value.value != "" ==> r == value.value
    ensures r == fallback <==> value.None? || value.value == "" || value.value == fallback
  {
    if value.Some? && value.value != "" then value.value else fallback
  }

  /** The pairs handed to `new URLSearchParams`, in the order the source lists them. */
  function QueryPairs(config: WidgetConfig): (q: seq<Pair>)
    ensures |q| == |QueryNames|
    ensures forall i :: 0 <= i < |q| ==> q[i].0 == QueryNames[i]
  {
    [ ("appCode", config.appCode),
      ("assets", Join(config.assets, ',')),
      ("modules", match config.modules case Some(json) => json case None => UndefinedText),
      ("networks", match config.networks case Some(json) => json case None => EmptyObjectJson),
      ("theme", OrElse(config.theme, DefaultTheme)),
      ("buttonColor", OrElse(config.buttonColor, DefaultButtonColor)),
      ("logo", OrElse(config.logo, "")) ]
  }

  /** The iframe's `src`: the base URL, `?`, and the serialized query. */
  function IframeUrl(config: WidgetConfig, encode: string -> string): (url: string)
    ensures |url| > |BaseUrl|
    ensures url[..|TrustedOrigin|] == TrustedOrigin
    ensures url[..|BaseUrl| + 1] == BaseUrl + "?"
    ensures url[|BaseUrl| + 1..] == Serialize(QueryPairs(config), encode)
  {
    var url := BaseUrl + "?" + Serialize(QueryPairs(config), encode);
    assert url[..|TrustedOrigin|] == BaseUrl[..|TrustedOrigin|];
    url
  }

  /** `URLSearchParams.get`: the value of the first pair with that name, if any. */
  function Get(q: seq<Pair>, name: string): (r: Option<string>)
    ensures r.None? <==> forall i :: 0 <= i < |q| ==> q[i].0 != name
    ensures r.Some? ==> exists i :: 0 <= i < |q| && q[i] == (name, r.value) && forall j :: 0 <= j < i ==> q[j].0 != name
  {
    if q == [] then None
    else if q[0].0 == name then Some(q[0].1)
    else Get(q[1..], name)
  }

  /** The value the query carries under `QueryNames[k]`. */
  lemma QueryValueAt(config: WidgetConfig, k: nat)
    requires k < |QueryNames|
    ensures Get(QueryPairs(config), QueryNames[k]) == Some(QueryPairs(config)[k].1)
  {
  }

  /** `appCode` is passed on exactly as given, with no check and no trimming. */
  lemma AppCodeVerbatim(config: WidgetConfig)
    ensures Get(QueryPairs(config), "appCode") == Some(config.appCode)
  {
  }

  /**
   * `assets` is the list joined with commas: no assets give the empty
   * string, and a non-empty list of comma-free assets is recovered by splitting.
   */
  lemma AssetsParameter(config: WidgetConfig)
    ensures config.assets == [] ==> Get(QueryPairs(config), "assets") == Some("")
    ensures |config.assets| >= 1 && (forall i :: 0 <= i < |config.assets| ==> ',' !in config.assets[i]) ==>
      Get(QueryPairs(config), "assets").Some? &&
      Split(Get(QueryPairs(config), "assets").value, ',') == config.assets
  {
    QueryValueAt(config, 1);
    if |config.assets| >= 1 && (forall i :: 0 <= i < |config.assets| ==> ',' !in config.assets[i]) {
      SplitJoin(config.assets, ',');
    }
  }

  /**
   * An absent `modules` is not defaulted and reaches the URL as the word
   * `undefined`; an absent `networks` becomes `{}`. Present JSON text passes through.
   */
  lemma SerializedFlagParameters(config: WidgetConfig)
    ensures Get(QueryPairs(config), "modules") == Some(if config.modules.None? then UndefinedText else config.modules.value)
    ensures Get(QueryPairs(config), "networks") == Some(if config.networks.None? then EmptyObjectJson else config.networks.value)
  {
    QueryValueAt(config, 2);
    QueryValueAt(config, 3);
  }

  /**
   * `theme` is `light` exactly when it is absent, empty or `light` itself;
   * any other non-empty theme passes through unchanged.
   */
  lemma ThemeParameter(config: WidgetConfig)
    ensures Get(QueryPairs(config), "theme") == Some(DefaultTheme) <==>
      config.theme == None || config.theme == Some("") || config.theme == Some(DefaultTheme)
    ensures config.theme.Some? && config.theme.value != "" ==> Get(QueryPairs(config), "theme") == config.theme
  {
    QueryValueAt(config, 4);
  }

  /**
   * `buttonColor` is `#4B6BFB` exactly when it is absent, empty or that
   * colour; any other non-empty colour passes through unchanged.
   */
  lemma ButtonColorParameter(config: WidgetConfig)
    ensures Get(QueryPairs(config), "buttonColor") == Some(DefaultButtonColor) <==>
      config.buttonColor == None || config.buttonColor == Some("") || config.buttonColor == Some(DefaultButtonColor)
    ensures config.buttonColor.Some? && config.buttonColor.value != "" ==>
      Get(QueryPairs(config), "buttonColor") == config.buttonColor
  {
    QueryValueAt(config, 5);
  }

  /**
   * `logo` is empty exactly when it is absent or empty, so an absent logo
   * never reaches the URL as `undefined`; a non-empty logo passes through.
   */
  lemma LogoParameter(config: WidgetConfig)
    ensures Get(QueryPairs(config), "logo") == Some("") <==> config.logo == None || config.logo == Some("")
    ensures config.logo.None? ==> Get(QueryPairs(config), "logo") != Some(UndefinedText)
    ensures config.logo.Some? && config.logo.value != "" ==> Get(QueryPairs(config), "logo") == config.logo
  {
    QueryValueAt(config, 6);
  }

  /**
   * The query of the iframe URL, the text after `BaseUrl?`, parses back into
   * the seven pairs, in order, as the encoder wrote them.
   */
  lemma IframeUrlParses(config: WidgetConfig, encode: string -> string)
    requires SafeEncoder(encode)
    ensures Parse(IframeUrl(config, encode)[|BaseUrl| + 1..]) == Encoded(QueryPairs(config), encode)
  {
  }

  // ---------------------------------------------------------------------------
  // The wallet handshake

  /** The two provider methods the bridge calls. */
  datatype RpcMethod = EthAccounts | EthChainId {
    function Name(): string {
      match this
      case EthAccounts => "eth_accounts"
      case EthChainId => "eth_chainId"
    }
  }

  /** How a provider request settles: rejected, or resolved with a value. */
  datatype Reply<T> = Rejected | Resolved(value: T)

  /**
   * The provider's answers for one round. `accounts` resolves to `None` for
   * `null` or `undefined`, otherwise to the list of addresses.
   */
  datatype ProviderReplies = ProviderReplies(accounts: Reply<Option<seq<string>>>, chainId: Reply<string>)

  /** The host-to-frame message; its `type` is always `WOOP_CONNECT`. */
  datatype ConnectMessage = ConnectMessage(address: string, chainId: string) {
    function Type(): string { "WOOP_CONNECT" }
  }

  /** What one round does that can be observed from outside: provider requests and posts. */
  datatype BridgeEvent =
    | Request(rpc: RpcMethod)
    | Post(message: ConnectMessage, targetOrigin: string)

  /** The `data` of an incoming message: `null`/`undefined`, or a value whose `type` property may be a string. */
  datatype MessageData = Nullish | Value(typeField: Option<string>)

  const ConnectRequestType: string := "CONNECT_WALLET"

  /** `accounts?.[0]`: undefined when the list is missing or empty. */
  function FirstAccount(accounts: Option<seq<string>>): (first: Option<string>)
    ensures first.Some? <==> accounts.Some? && |accounts.value| > 0
    ensures first.Some? ==> first.value == accounts.value[0]
  {
    if accounts.Some? && |accounts.value| > 0 then Some(accounts.value[0]) else None
  }

  predicate Truthy(s: Option<string>) {
    s.Some? && s.value != ""
  }

  /** The provider has an address to report this round. */
  predicate HasAddress(replies: ProviderReplies) {
    replies.accounts.Resolved? && Truthy(FirstAccount(replies.accounts.value))
  }

  /**
   * One run of `sendWalletInfo`. Without a provider nothing happens; otherwise
   * `eth_accounts` is requested first, every round; `eth_chainId` is requested
   * only after an address was found; one message, to the trusted origin, is
   * posted only when both requests resolve and the frame still has a window.
   * Every rejection ends the round quietly.
   */
  function Round(hasProvider: bool, replies: ProviderReplies, frameAttached: bool): (events: seq<BridgeEvent>)
    ensures !hasProvider ==> events == []
    ensures hasProvider ==> 1 <= |events| <= 3 && events[0] == Request(EthAccounts)
    ensures hasProvider ==> events[0].rpc.Name() == "eth_accounts"
    ensures Request(EthChainId) in events <==> hasProvider && HasAddress(replies)
    ensures forall i, j ::
      0 <= i < |events| && 0 <= j < |events| && events[i] == Request(EthAccounts) && events[j] == Request(EthChainId)
      ==> i < j
    ensures forall i, j :: 0 <= i < j < |events| ==> events[i] != events[j]
    ensures (exists i :: 0 <= i < |events| && events[i].Post?) <==>
      hasProvider && HasAddress(replies) && replies.chainId.Resolved? && frameAttached
    ensures forall i :: 0 <= i < |events| && events[i].Post? ==>
      i == |events| - 1 &&
      events[i].targetOrigin == TrustedOrigin && events[i].message.Type() == "WOOP_CONNECT" &&
      replies.accounts.Resolved? && FirstAccount(replies.accounts.value) == Some(events[i].message.address) &&
      replies.chainId == Resolved(events[i].message.chainId)
  {
    if !hasProvider then []
    else if !HasAddress(replies) then [Request(EthAccounts)]
    else if replies.chainId.Rejected? then [Request(EthAccounts), Request(EthChainId)]
    else
      var address := FirstAccount(replies.accounts.value).value;
      var events := [Request(EthAccounts), Request(EthChainId)] +
        (if frameAttached then [Post(ConnectMessage(address, replies.chainId.value), TrustedOrigin)] else []);
      assert frameAttached ==> events[2].Post?;
      events
  }

  /**
   * A message starts a round only when it comes from the trusted origin and
   * its `type` is `CONNECT_WALLET`; such a message never has `null` or
   * `undefined` data, so reading its `type` cannot throw.
   */
  predicate IsConnectRequest(origin: string, data: MessageData)
    ensures IsConnectRequest(origin, data) ==> !data.Nullish?
  {
    origin == TrustedOrigin && data.Value? && data.typeField == Some(ConnectRequestType)
  }

  /**
   * What the `message` listener does: a full round for a connect request
   * from the trusted origin, and nothing for any other message whatever its `type`.
   */
  function ListenerEvents(hasProvider: bool, origin: string, data: MessageData,
                          replies: ProviderReplies, frameAttached: bool): (events: seq<BridgeEvent>)
    ensures origin != TrustedOrigin ==> events == []
    ensures !(data.Value? && data.typeField == Some(ConnectRequestType)) ==> events == []
    ensures IsConnectRequest(origin, data) ==> events == Round(hasProvider, replies, frameAttached)
  {
    if IsConnectRequest(origin, data) then Round(hasProvider, replies, frameAttached) else []
  }

  /**
   * Two rounds in a row each query the provider afresh: the second round's
   * requests follow the first's, and what it posts comes from its own replies only.
   */
  lemma RoundsAreNotCached(first: ProviderReplies, second: ProviderReplies, attached1: bool, attached2: bool)
    ensures var r1 := Round(true, first, attached1);
      var log := r1 + Round(true, second, attached2);
      log[|r1|] == Request(EthAccounts) &&
      (HasAddress(second) && second.chainId.Resolved? && attached2 ==>
        log[|log| - 1] == Post(ConnectMessage(FirstAccount(second.accounts.value).value, second.chainId.value), TrustedOrigin))
  {
  }

  /**
   * The mounted widget: the iframe's source URL, whether a provider was
   * given, and a log of the provider requests and posts made so far.
   */
  class Widget {
    const src: string
    const hasProvider: bool
    ghost var log: seq<BridgeEvent>

    /** `createWoopWidget`, up to mounting the frame: nothing has been requested or posted yet. */
    constructor Create(config: WidgetConfig, encode: string -> string)
      ensures src == IframeUrl(config, encode)
      ensures hasProvider == config.provider
      ensures log == []
    {
      src := IframeUrl(config, encode);
      hasProvider := config.provider;
      log := [];
    }

    /** `sendWalletInfo`, step by step, with its early returns and its `catch`. */
    method SendWalletInfo(replies: ProviderReplies, frameAttached: bool)
      modifies this
      ensures log == old(log) + Round(hasProvider, replies, frameAttached)
    {
      if !hasProvider {
        return;
      }
      log := log + [Request(EthAccounts)];
      if replies.accounts.Rejected? {
        return;
      }
      var address := FirstAccount(replies.accounts.value);
      if !Truthy(address) {
        return;
      }
      log := log + [Request(EthChainId)];
      if replies.chainId.Rejected? {
        return;
      }
      if frameAttached {
        log := log + [Post(ConnectMessage(address.value, replies.chainId.value), TrustedOrigin)];
      }
    }

    /** The frame's `load` event runs one round. */
    method OnLoad(replies: ProviderReplies, frameAttached: bool)
      modifies this
      ensures log == old(log) + Round(hasProvider, replies, frameAttached)
    {
      SendWalletInfo(replies, frameAttached);
    }

    /**
     * The window's `message` listener. Reading `type` from `null` or
     * `undefined` data of a trusted-origin message throws, which rejects
     * the listener's promise; nothing is requested or posted then either.
     */
    method OnMessage(origin: string, data: MessageData, replies: ProviderReplies, frameAttached: bool)
      returns (rejected: bool)
      modifies this
      ensures rejected <==> origin == TrustedOrigin && data.Nullish?
      ensures log == old(log) + ListenerEvents(hasProvider, origin, data, replies, frameAttached)
    {
      rejected := false;
      if origin != TrustedOrigin {
        return;
      }
      if data.Nullish? {
        rejected := true;
        return;
      }
      if data.typeField == Some(ConnectRequestType) {
        SendWalletInfo(replies, frameAttached);
      }
    }
  }
}
