/**
 * The deterministic helpers of the contract utility module: the null-signer
 * guard of `getContracts`, `validateContracts` and `formatAddress`.
 */
module BlockchainUtils {
  import opened JsBuiltins
  import opened EthersHandles

  /** An `ethers.Contract`: a target address and the runner (signer) it sends through. */
  datatype Contract = Contract(target: string, runner: Option<Signer>)

  /** The object `getContracts` returns; each entry may be missing in objects built elsewhere. */
  datatype ContractSet = ContractSet(
    developerPortfolioNFT: Option<Contract>,
    jobRoadmap: Option<Contract>,
    challengeRegistry: Option<Contract>)

  /** The three build-environment variables that hold the deployment addresses (None when unset). */
  datatype BuildEnvironment = BuildEnvironment(
    developerPortfolioNFT: Option<string>,
    jobRoadmap: Option<string>,
    challengeRegistry: Option<string>)

  /** `import.meta.env.X || ''`: an unset or empty variable gives the empty address. */
  function EnvAddress(v: Option<string>): (a: string)
    ensures v.Some? ==> a == v.value
    ensures v.None? ==> a == ""
  {
    if v.None? || v.value == "" then "" else v.value
  }

  /** The three entries of a contract set, in declaration order. */
  function Entries(cs: ContractSet): seq<Option<Contract>> {
    [cs.developerPortfolioNFT, cs.jobRoadmap, cs.challengeRegistry]
  }

  /** An entry is usable when it is present and has a runner. */
  predicate Connected(c: Option<Contract>) {
    c.Some? && c.value.runner.Some?
  }

  /** `validateContracts`: a missing object, a missing entry or a missing runner makes it false. */
  predicate ValidateContracts(contracts: Option<ContractSet>): (valid: bool)
    ensures valid <==> contracts.Some? && forall c :: c in Entries(contracts.value) ==> Connected(c)
  {
    && contracts.Some?
    && Connected(contracts.value.developerPortfolioNFT)
    && Connected(contracts.value.jobRoadmap)
    && Connected(contracts.value.challengeRegistry)
  }

  /**
   * `getContracts(signer)`: null without a signer; otherwise one contract per
   * configured address (`EnvAddress` of its variable), all bound to that signer,
   * or null when a contract constructor throws (`constructorThrows`).
   */
  function GetContracts(signer: Option<Signer>, env: BuildEnvironment, constructorThrows: bool)
    : (r: Option<ContractSet>)
    ensures r.Some? <==> signer.Some? && !constructorThrows
    ensures r.Some? ==>
      && r.value.developerPortfolioNFT == Some(Contract(EnvAddress(env.developerPortfolioNFT), signer))
      && r.value.jobRoadmap == Some(Contract(EnvAddress(env.jobRoadmap), signer))
      && r.value.challengeRegistry == Some(Contract(EnvAddress(env.challengeRegistry), signer))
  {
    if signer.None? then None
    else if constructorThrows then None
    else Some(ContractSet(
      Some(Contract(EnvAddress(env.developerPortfolioNFT), signer)),
      Some(Contract(EnvAddress(env.jobRoadmap), signer)),
      Some(Contract(EnvAddress(env.challengeRegistry), signer))))
  }

  /** What `getContracts` returns passes `validateContracts` exactly when it is not null. */
  lemma GetContractsValidates(signer: Option<Signer>, env: BuildEnvironment, constructorThrows: bool)
    ensures ValidateContracts(GetContracts(signer, env, constructorThrows))
        <==> signer.Some? && !constructorThrows
  {
  }

  function Min(a: nat, b: nat): nat {
    if a < b then a else b
  }

  /**
   * `formatAddress`: the empty string for a missing or empty address, otherwise
   * `address.slice(0, 6) + "..." + address.slice(-4)`.
   */
  function FormatAddress(address: Option<string>): (r: string)
    ensures r == "" <==> address.None? || address.value == ""
  {
    if address.None? || address.value == "" then ""
    else Slice(address.value, 0, Some(6)) + "..." + Slice(address.value, -4, None)
  }

  /** The shape of a formatted address: at most six leading characters, "...", at most four trailing ones. */
  lemma FormatAddressShape(a: string)
    requires a != ""
    ensures FormatAddress(Some(a)) == a[..Min(6, |a|)] + "..." + a[|a| - Min(4, |a|)..]
  {
    SliceHead(a, 6);
    SliceTail(a, 4);
  }

  /** The formatted length; an address of six characters or more always shows as 13 characters. */
  lemma FormatAddressLength(a: string)
    requires a != ""
    ensures |FormatAddress(Some(a))| == Min(6, |a|) + 3 + Min(4, |a|)
    ensures |a| >= 6 ==> |FormatAddress(Some(a))| == 13
  {
    FormatAddressShape(a);
  }

  /**
   * Nothing but the middle is dropped: for an address of ten characters or more,
   * the head and tail of the display and the hidden middle put back give the address.
   */
  lemma FormatAddressKeepsEnds(a: string)
    requires |a| >= 10
    ensures var r := FormatAddress(Some(a));
      |r| == 13 && r[6..9] == "..." && a == r[..6] + a[6..|a| - 4] + r[9..]
  {
    FormatAddressShape(a);
    var r := FormatAddress(Some(a));
    assert r[..6] == a[..6];
    assert r[9..] == a[|a| - 4..];
    assert a == a[..6] + a[6..|a| - 4] + a[|a| - 4..];
  }
}
