/** The Bitcoin Cash networks. */
module Networks {
  datatype BitcoinCashNetwork = Mainnet | Testnet3 | Testnet4 | Scalenet | Chipnet | Regtest
}
