/** The records the store keeps (internal/domain/types.go), without clocks. */
module Domain {

  datatype Option<+T> = None | Some(value: T)

  datatype Blob = Blob(path: string, content: string)

  datatype Chunk = Chunk(id: string, blobName: string, ordinal: nat, symbol: string, symbolKind: string,
                         startLine: int, endLine: int, language: string, tokenCount: nat, contentHash: string)
}
