/** The reply codes of src/include/commands.h.  Most of them are several bits. */
module ReplyCodes {
  type Code = bv32

  const OK: Code := 0x0
  const WOULDBLOCK: Code := 0x1
  const ERROR: Code := 0x2
  const CRITICALERROR: Code := 0x6
  const CANCELED: Code := 0xA
  const SYNTAXERROR: Code := 0x12
  const NOTCONNECTED: Code := 0x22
  const DISCONNECTED: Code := 0x40
  const INTERNALERROR: Code := 0x82
  const BUSY: Code := 0x102
  const ALREADYCONNECTED: Code := 0x202
  const PASSWORDFAILED: Code := 0x400
  const TIMEOUT: Code := 0x802
  const CONTINUE: Code := 0x8000
  const ERROR_NOTFOUND: Code := 0x10002

  predicate Has(code: Code, bits: Code) {
    code & bits == bits
  }
}
