/** Limits of the IMAP client. */
module ImapLimits {

  /** How many headers one FETCH asks for. */
  const HEADER_FETCH_BATCH_SIZE := 128
}
