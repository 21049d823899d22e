// What travels on one RPC connection: header frames and body frames, in pairs.
module RpcWire {
  // An empty error string means "no error", as in the original header.
  datatype Header = Header(target: string, number: nat, error: string)

  datatype Payload =
    | Args(args: string)
    | Reply(reply: string)
    | Placeholder  // sent in place of a reply when the header carries an error

  datatype Frame =
    | HeaderFrame(h: Header)
    | BodyFrame(body: Payload)

  // One direction of the connection. `log` is everything ever delivered, `pos`
  // is the reader's position, `cut` says that nothing more can be delivered,
  // `dead` that the reader has seen a transport error and reads nothing more.
  datatype Pipe = Pipe(log: seq<Frame>, pos: nat, cut: bool, dead: bool)
  {
    // A write of a header and a body delivers `n` whole frames. Anything short
    // of a clean write of both cuts the pipe; a cut pipe delivers nothing.
    predicate CanWrite(n: nat) {
      n <= 2 && (cut ==> n == 0)
    }

    function Write(h: Header, body: Payload, ok: bool, n: nat): Pipe
      requires CanWrite(n)
    {
      this.(log := log + [HeaderFrame(h), BodyFrame(body)][..n], cut := cut || !ok || n < 2)
    }

    // A header read meets whatever frame comes next; a body frame read as a
    // header decodes to anything at all.
    predicate CanReadHeader(h: Header) {
      !dead && pos < |log| && (log[pos].HeaderFrame? ==> log[pos].h == h)
    }

    predicate CanReadBody(body: Payload) {
      !dead && pos < |log| && (log[pos].BodyFrame? ==> log[pos].body == body)
    }

    function Advance(): Pipe {
      this.(pos := pos + 1)
    }
  }
}
