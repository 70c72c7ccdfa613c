/**
 * Objects that the ethers library and the wallet extension hand to the demo.
 * The demo never looks inside them: it stores, passes on and tests them for
 * presence, so each is modelled by its identity alone.
 */
module EthersHandles {

  /** An `ethers.BrowserProvider` wrapped around the injected wallet. */
  datatype BrowserProvider = BrowserProvider(id: nat)

  /** The signer returned by `BrowserProvider.getSigner()`. */
  datatype Signer = Signer(id: nat)
}
