/**
 * The decoded Typetalk stream message the handler receives: the message type
 * tag and the fields of its payload that the notifier reads.
 */
module Stream {
  import opened Wrappers

  datatype Space = Space(key: string)

  datatype Topic = Topic(id: int, name: string)

  /** The author of a post. */
  datatype Account = Account(name: string, isBot: bool)

  datatype Post = Post(id: int, message: string, account: Account)

  /** Present when the post belongs to a direct-message conversation; its contents are not read. */
  datatype DirectMessage = DirectMessage

  /** The payload; `space` and `directMessage` are nil pointers in Go when absent. */
  datatype Data = Data(space: Option<Space>, topic: Topic, post: Post, directMessage: Option<DirectMessage>)

  datatype Message = Message(msgType: string, data: Data)
}
