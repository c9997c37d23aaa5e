/** The records shared by the chat server and the client
    (src/types/index.ts): a citation of a document excerpt and a chat
    message. */
module Types {
  import opened Wrappers

  /** A source excerpt backing an answer.  `pageNumber` may be absent. */
  datatype Citation = Citation(
    id: string,
    documentTitle: string,
    pageNumber: Option<int>,
    excerpt: string,
    similarity: real)

  datatype Role = User | Assistant

  /** A transcript entry; an absent citation list is the empty list. */
  datatype Message = Message(
    id: string,
    content: string,
    role: Role,
    citations: seq<Citation>,
    isLoading: bool)
}
