/**
 * The wallet session shared by every page: whether a wallet is connected, its
 * address, the ethers provider and signer, the chain id and whether a connect
 * request is under way. Every answer of the wallet extension (account lists,
 * chain ids, errors) is an input of the operation that receives it.
 */
module WalletContext {
  import opened JsBuiltins
  import opened EthersHandles

  /** The chain id of the Sepolia test network. */
  const SepoliaChainId: int := 11155111

  /** The same id as the hexadecimal string sent in switch and add-chain requests. */
  const SepoliaChainIdHex: string := "0xaa36a7"

  /** The hexadecimal string the wallet sends really is the Sepolia chain id. */
  lemma SepoliaHexIsSepoliaId()
    ensures ParseIntHex(SepoliaChainIdHex) == Int(SepoliaChainId)
  {
    var written := "0x" + ToHex(SepoliaChainId) + "";
    SepoliaDigits();
    assert written == SepoliaChainIdHex;
    ParseIntHexOfToHex(SepoliaChainId, "");
    assert ParseIntHex(written) == Int(SepoliaChainId);
  }

  lemma SepoliaDigits()
    ensures ToHex(SepoliaChainId) == "aa36a7"
  {
    assert ToHex(10) == "a";
    assert ToHex(170) == ToHex(10) + "a";
    assert ToHex(2723) == ToHex(170) + "3";
    assert ToHex(43574) == ToHex(2723) + "6";
    assert ToHex(697194) == ToHex(43574) + "a";
    assert ToHex(11155111) == ToHex(697194) + "7";
  }

  // ---------------------------------------------------------------------------
  // Errors of the wallet extension and how the connect handler reports them
  // ---------------------------------------------------------------------------

  /** A thrown provider error: its numeric `code` (if any) and its `message` ("" when missing). */
  datatype ProviderError = ProviderError(code: Option<int>, message: string)

  const UserRejectedCode: int := 4001
  const RequestPendingCode: int := -32002
  const UnrecognizedChainCode: int := 4902
  const AlreadyProcessingMessage: string := "Already processing eth_requestAccounts"

  /** The alert the connect handler shows for a failure. */
  datatype ConnectAlert =
    | ConnectionRejected
    | RequestAlreadyPending
    | RequestInProgress
    | ConnectFailed(detail: string)

  /**
   * Dispatch on the error, first match wins: code 4001, code -32002, a message
   * mentioning an `eth_requestAccounts` already being processed, anything else.
   */
  function ClassifyConnectError(e: ProviderError): (alert: ConnectAlert)
    ensures alert.ConnectFailed? ==> alert.detail != ""
    ensures e.code == Some(UserRejectedCode) ==> alert == ConnectionRejected
  {
    if e.code == Some(UserRejectedCode) then ConnectionRejected
    else if e.code == Some(RequestPendingCode) then RequestAlreadyPending
    else if e.message != "" && Includes(e.message, AlreadyProcessingMessage) then RequestInProgress
    else ConnectFailed(if e.message != "" then e.message else "Unknown error")
  }

  /** Each alert in terms of the error alone, with the priority of the dispatch made explicit. */
  lemma ClassifyConnectErrorCases(e: ProviderError)
    ensures ClassifyConnectError(e) == ConnectionRejected <==> e.code == Some(UserRejectedCode)
    ensures ClassifyConnectError(e) == RequestAlreadyPending <==> e.code == Some(RequestPendingCode)
    ensures ClassifyConnectError(e) == RequestInProgress <==>
      e.code != Some(UserRejectedCode) && e.code != Some(RequestPendingCode) &&
      exists i :: OccursAt(e.message, AlreadyProcessingMessage, i)
    ensures ClassifyConnectError(e).ConnectFailed? ==>
      ClassifyConnectError(e).detail == (if e.message == "" then "Unknown error" else e.message)
  {
    IncludesIffOccurs(e.message, AlreadyProcessingMessage);
    if e.message == "" {
      assert !exists i :: OccursAt(e.message, AlreadyProcessingMessage, i);
    }
  }

  // ---------------------------------------------------------------------------
  // Switching to Sepolia
  // ---------------------------------------------------------------------------

  /** The network description sent when the wallet does not know Sepolia yet. */
  datatype ChainParameters = ChainParameters(
    chainId: string,
    chainName: string,
    currencyName: string,
    currencySymbol: string,
    decimals: nat,
    rpcUrls: seq<string>,
    blockExplorerUrls: seq<string>)

  function SepoliaParameters(): (p: ChainParameters)
    ensures ParseIntHex(p.chainId) == Int(SepoliaChainId)
    ensures p.rpcUrls != [] && p.decimals == 18
  {
    SepoliaHexIsSepoliaId();
    ChainParameters(SepoliaChainIdHex, "Sepolia Testnet", "Sepolia ETH", "ETH", 18,
                    ["https://rpc.sepolia.org"], ["https://sepolia.etherscan.io"])
  }

  /** The requests the network switch sends to the wallet. */
  datatype WalletRequest =
    | SwitchChain(chainId: string)
    | AddChain(parameters: ChainParameters)

  function RequestedChain(r: WalletRequest): string {
    match r
    case SwitchChain(id) => id
    case AddChain(p) => p.chainId
  }

  /**
   * `switchToSepolia`: nothing without a wallet; otherwise a switch request, and
   * an add-chain request only when the switch failed with code 4902. Any other
   * failure, and any failure of the add-chain request, is only logged.
   */
  function SwitchToSepoliaRequests(hasWallet: bool, switchError: Option<ProviderError>): (reqs: seq<WalletRequest>)
    ensures |reqs| <= 2
    ensures hasWallet <==> reqs != []
    ensures reqs != [] ==> reqs[0] == SwitchChain(SepoliaChainIdHex)
  {
    if !hasWallet then []
    else if switchError.Some? && switchError.value.code == Some(UnrecognizedChainCode) then
      [SwitchChain(SepoliaChainIdHex), AddChain(SepoliaParameters())]
    else [SwitchChain(SepoliaChainIdHex)]
  }

  /**
   * Every request of the switch names the Sepolia network (whose hexadecimal id
   * parses to 11155111, by SepoliaHexIsSepoliaId), and add-chain is sent only
   * after a 4902 error.
   */
  lemma SwitchToSepoliaTargetsSepolia(hasWallet: bool, switchError: Option<ProviderError>)
    ensures forall r :: r in SwitchToSepoliaRequests(hasWallet, switchError) ==>
      RequestedChain(r) == SepoliaChainIdHex
    ensures (exists r :: r in SwitchToSepoliaRequests(hasWallet, switchError) && r.AddChain?) <==>
      hasWallet && switchError.Some? && switchError.value.code == Some(UnrecognizedChainCode)
  {
    var reqs := SwitchToSepoliaRequests(hasWallet, switchError);
    if |reqs| == 2 {
      assert reqs[1] in reqs;
    }
  }

  // ---------------------------------------------------------------------------
  // The session
  // ---------------------------------------------------------------------------

  /** What the wallet answered to a connect attempt. */
  datatype ConnectResponse =
    /** Accounts, chain id and signer were all obtained. */
    | Granted(accounts: seq<string>, chainIdHex: string, provider: BrowserProvider, signer: Signer)
    /** One of those requests threw this error. */
    | Refused(error: ProviderError)

  /** What a connect attempt showed the user. */
  datatype ConnectOutcome =
    | MetaMaskMissing
    | Connected(switchOffered: bool, switchRequested: bool)
    | Failed(alert: ConnectAlert)

  class WalletSession {
    var isConnected: bool
    var address: string
    var provider: Option<BrowserProvider>
    var signer: Option<Signer>
    var chainId: Option<IntOrNaN>
    var connecting: bool

    /**
     * Between operations no connect is under way; a disconnected session has no
     * address and no signer; a connected one has a provider and a signer.
     */
    ghost predicate Valid()
      reads this
    {
      && !connecting
      && (!isConnected ==> address == "" && signer.None?)
      && (isConnected ==> provider.Some? && signer.Some?)
    }

    constructor ()
      ensures Valid()
      ensures !isConnected && address == "" && provider.None? && signer.None?
      ensures chainId.None? && !connecting
    {
      isConnected := false;
      address := "";
      provider := None;
      signer := None;
      chainId := None;
      connecting := false;
    }

    /** `isSepoliaNetwork`: the session's chain id is Sepolia's. */
    function IsSepoliaNetwork(): (onSepolia: bool)
      reads this
      ensures onSepolia <==> chainId == Some(ParseIntHex(SepoliaChainIdHex))
    {
      SepoliaHexIsSepoliaId();
      chainId == Some(Int(SepoliaChainId))
    }

    /**
     * The wallet reports its account list (only while connected, when the
     * listener is registered): an empty list ends the session, keeping the
     * provider and chain id; otherwise the first account becomes the address.
     */
    method HandleAccountsChanged(accounts: seq<string>)
      requires Valid() && isConnected
      modifies this
      ensures Valid()
      ensures provider == old(provider) && chainId == old(chainId) && connecting == old(connecting)
      ensures accounts == [] ==> !isConnected && address == "" && signer.None?
      ensures accounts != [] ==> isConnected && address == accounts[0] && signer == old(signer)
    {
      if |accounts| == 0 {
        isConnected := false;
        address := "";
        signer := None;
      } else {
        address := accounts[0];
      }
    }

    /**
     * The wallet reports a new chain (only while connected, when the listener is
     * registered): its hexadecimal id is parsed into the session.
     */
    method HandleChainChanged(chainIdHex: string)
      requires Valid() && isConnected
      modifies this
      ensures Valid()
      ensures chainId == Some(ParseIntHex(chainIdHex))
      ensures IsSepoliaNetwork() <==> ParseIntHex(chainIdHex) == Int(SepoliaChainId)
      ensures isConnected == old(isConnected) && address == old(address)
      ensures provider == old(provider) && signer == old(signer) && connecting == old(connecting)
    {
      chainId := Some(ParseIntHex(chainIdHex));
    }

    /**
     * `connectWallet`. Without MetaMask nothing changes. Otherwise `connecting`
     * is raised for the duration of the attempt and is lowered whatever the
     * outcome; a refused attempt leaves the session as it was and reports the
     * classified alert; a granted one connects with the first account, the
     * provider, the signer and the parsed chain id, and offers a network switch
     * when that chain is not Sepolia (`confirmSwitch` is the user's answer).
     */
    method ConnectWallet(metaMaskInstalled: bool, response: ConnectResponse, confirmSwitch: bool)
      returns (outcome: ConnectOutcome)
      requires Valid()
      requires response.Granted? ==> response.accounts != []
      modifies this
      ensures Valid()
      ensures !metaMaskInstalled ==>
        outcome == MetaMaskMissing &&
        isConnected == old(isConnected) && address == old(address) && provider == old(provider) &&
        signer == old(signer) && chainId == old(chainId) && connecting == old(connecting)
      ensures metaMaskInstalled && response.Refused? ==>
        outcome == Failed(ClassifyConnectError(response.error)) &&
        isConnected == old(isConnected) && address == old(address) && provider == old(provider) &&
        signer == old(signer) && chainId == old(chainId) && !connecting
      ensures metaMaskInstalled && response.Granted? ==>
        isConnected && address == response.accounts[0] &&
        provider == Some(response.provider) && signer == Some(response.signer) &&
        chainId == Some(ParseIntHex(response.chainIdHex)) && !connecting &&
        outcome == Connected(!IsSepoliaNetwork(), !IsSepoliaNetwork() && confirmSwitch)
    {
      if !metaMaskInstalled {
        return MetaMaskMissing;
      }
      connecting := true;
      match response {
        case Refused(error) =>
          outcome := Failed(ClassifyConnectError(error));
        case Granted(accounts, chainIdHex, ethersProvider, ethersSigner) =>
          var currentChainId := ParseIntHex(chainIdHex);
          isConnected := true;
          address := accounts[0];
          provider := Some(ethersProvider);
          signer := Some(ethersSigner);
          chainId := Some(currentChainId);
          var offer := currentChainId != Int(SepoliaChainId);
          outcome := Connected(offer, offer && confirmSwitch);
      }
      connecting := false;
    }

    /** `disconnectWallet`: forget the connection locally; the chain id is kept. */
    method DisconnectWallet()
      requires Valid()
      modifies this
      ensures Valid()
      ensures !isConnected && address == "" && provider.None? && signer.None?
      ensures chainId == old(chainId) && connecting == old(connecting)
    {
      isConnected := false;
      address := "";
      provider := None;
      signer := None;
    }
  }

  /**
   * After a switch to Sepolia the wallet reports the chain id it was asked for;
   * the handler's state update puts the session on the Sepolia network, whatever
   * it was on before. That state lasts only until the page reload which follows
   * the update and brings back the initial state.
   */
  method ReportSepoliaChain(session: WalletSession)
    requires session.Valid() && session.isConnected
    modifies session
    ensures session.Valid() && session.IsSepoliaNetwork()
    ensures session.isConnected == old(session.isConnected) && session.address == old(session.address)
  {
    SepoliaHexIsSepoliaId();
    session.HandleChainChanged(SepoliaChainIdHex);
  }
}
