/** What the route handlers share: the authenticated caller and the response they send. */
module Http {
  import opened TicketModel
  import opened UserModel

  /** `req.user`: the payload of the verified token, `{ _id, role }`. The role is the one
      signed into the token, not the one stored now. */
  datatype Caller = Caller(id: ObjectId, role: Role)

  /** `res.status(status).json(body)`. */
  datatype Response<B> = Response(status: nat, body: B)
}
