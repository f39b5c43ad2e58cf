/** The chat records shared by the widget, the client service and the proxy (types.ts). */
module ChatTypes {

  /** `Message.role`: who wrote a chat bubble. */
  datatype Role = User | Model

  /** A chat bubble as the widget keeps it. */
  datatype Message = Message(role: Role, text: string)

  /** One entry of the chat-completion wire format, `{ role, content }`. */
  datatype WireMessage = WireMessage(role: string, content: string)

  /** The JSON bodies the proxy answers with: `{ error }` or `{ reply }`. */
  datatype ProxyBody = ErrorBody(error: string) | ReplyBody(reply: string)
}
