/** The code of Appendix B of RFC 7541 as the program tabulates it, and the facts that the Huffman
    coder and decoder rely on. The code is canonical: the words of one length are consecutive
    numbers, in the order of their symbols, and start above every shorter word. */
module HuffmanCode {
  import opened Bits
  import opened Huffman

  /** huffmanCodes. The lower half. */
  function CodeValueLow(s: Byte): int {
    if s < 16 then (match s case 0 => 0x1ff8 case 1 => 0x7fffd8 case 2 => 0xfffffe2 case 3 => 0xfffffe3
        case 4 => 0xfffffe4 case 5 => 0xfffffe5 case 6 => 0xfffffe6 case 7 => 0xfffffe7 case 8 => 0xfffffe8
        case 9 => 0xffffea case 10 => 0x3ffffffc case 11 => 0xfffffe9 case 12 => 0xfffffea case 13 => 0x3ffffffd
        case 14 => 0xfffffeb case _ => 0xfffffec)
    else if s < 32 then (match s case 16 => 0xfffffed case 17 => 0xfffffee case 18 => 0xfffffef case 19 => 0xffffff0
        case 20 => 0xffffff1 case 21 => 0xffffff2 case 22 => 0x3ffffffe case 23 => 0xffffff3 case 24 => 0xffffff4
        case 25 => 0xffffff5 case 26 => 0xffffff6 case 27 => 0xffffff7 case 28 => 0xffffff8 case 29 => 0xffffff9
        case 30 => 0xffffffa case _ => 0xffffffb)
    else if s < 48 then (match s case 32 => 0x14 case 33 => 0x3f8 case 34 => 0x3f9 case 35 => 0xffa case 36 => 0x1ff9
        case 37 => 0x15 case 38 => 0xf8 case 39 => 0x7fa case 40 => 0x3fa case 41 => 0x3fb case 42 => 0xf9
        case 43 => 0x7fb case 44 => 0xfa case 45 => 0x16 case 46 => 0x17 case _ => 0x18)
    else if s < 64 then (match s case 48 => 0x0 case 49 => 0x1 case 50 => 0x2 case 51 => 0x19 case 52 => 0x1a
        case 53 => 0x1b case 54 => 0x1c case 55 => 0x1d case 56 => 0x1e case 57 => 0x1f case 58 => 0x5c
        case 59 => 0xfb case 60 => 0x7ffc case 61 => 0x20 case 62 => 0xffb case _ => 0x3fc)
    else if s < 80 then (match s case 64 => 0x1ffa case 65 => 0x21 case 66 => 0x5d case 67 => 0x5e case 68 => 0x5f
        case 69 => 0x60 case 70 => 0x61 case 71 => 0x62 case 72 => 0x63 case 73 => 0x64 case 74 => 0x65
        case 75 => 0x66 case 76 => 0x67 case 77 => 0x68 case 78 => 0x69 case _ => 0x6a)
    else if s < 96 then (match s case 80 => 0x6b case 81 => 0x6c case 82 => 0x6d case 83 => 0x6e case 84 => 0x6f
        case 85 => 0x70 case 86 => 0x71 case 87 => 0x72 case 88 => 0xfc case 89 => 0x73 case 90 => 0xfd
        case 91 => 0x1ffb case 92 => 0x7fff0 case 93 => 0x1ffc case 94 => 0x3ffc case _ => 0x22)
    else if s < 112 then (match s case 96 => 0x7ffd case 97 => 0x3 case 98 => 0x23 case 99 => 0x4 case 100 => 0x24
        case 101 => 0x5 case 102 => 0x25 case 103 => 0x26 case 104 => 0x27 case 105 => 0x6 case 106 => 0x74
        case 107 => 0x75 case 108 => 0x28 case 109 => 0x29 case 110 => 0x2a case _ => 0x7)
    else (match s case 112 => 0x2b case 113 => 0x76 case 114 => 0x2c case 115 => 0x8 case 116 => 0x9 case 117 => 0x2d
        case 118 => 0x77 case 119 => 0x78 case 120 => 0x79 case 121 => 0x7a case 122 => 0x7b case 123 => 0x7ffe
        case 124 => 0x7fc case 125 => 0x3ffd case 126 => 0x1ffd case _ => 0xffffffc)
  }

  /** huffmanCodes. The upper half. */
  function CodeValueHigh(s: Byte): int {
    if s < 144 then (match s case 128 => 0xfffe6 case 129 => 0x3fffd2 case 130 => 0xfffe7 case 131 => 0xfffe8
        case 132 => 0x3fffd3 case 133 => 0x3fffd4 case 134 => 0x3fffd5 case 135 => 0x7fffd9 case 136 => 0x3fffd6
        case 137 => 0x7fffda case 138 => 0x7fffdb case 139 => 0x7fffdc case 140 => 0x7fffdd case 141 => 0x7fffde
        case 142 => 0xffffeb case _ => 0x7fffdf)
    else if s < 160 then (match s case 144 => 0xffffec case 145 => 0xffffed case 146 => 0x3fffd7 case 147 => 0x7fffe0
        case 148 => 0xffffee case 149 => 0x7fffe1 case 150 => 0x7fffe2 case 151 => 0x7fffe3 case 152 => 0x7fffe4
        case 153 => 0x1fffdc case 154 => 0x3fffd8 case 155 => 0x7fffe5 case 156 => 0x3fffd9 case 157 => 0x7fffe6
        case 158 => 0x7fffe7 case _ => 0xffffef)
    else if s < 176 then (match s case 160 => 0x3fffda case 161 => 0x1fffdd case 162 => 0xfffe9 case 163 => 0x3fffdb
        case 164 => 0x3fffdc case 165 => 0x7fffe8 case 166 => 0x7fffe9 case 167 => 0x1fffde case 168 => 0x7fffea
        case 169 => 0x3fffdd case 170 => 0x3fffde case 171 => 0xfffff0 case 172 => 0x1fffdf case 173 => 0x3fffdf
        case 174 => 0x7fffeb case _ => 0x7fffec)
    else if s < 192 then (match s case 176 => 0x1fffe0 case 177 => 0x1fffe1 case 178 => 0x3fffe0 case 179 => 0x1fffe2
        case 180 => 0x7fffed case 181 => 0x3fffe1 case 182 => 0x7fffee case 183 => 0x7fffef case 184 => 0xfffea
        case 185 => 0x3fffe2 case 186 => 0x3fffe3 case 187 => 0x3fffe4 case 188 => 0x7ffff0 case 189 => 0x3fffe5
        case 190 => 0x3fffe6 case _ => 0x7ffff1)
    else if s < 208 then (match s case 192 => 0x3ffffe0 case 193 => 0x3ffffe1 case 194 => 0xfffeb case 195 => 0x7fff1
        case 196 => 0x3fffe7 case 197 => 0x7ffff2 case 198 => 0x3fffe8 case 199 => 0x1ffffec case 200 => 0x3ffffe2
        case 201 => 0x3ffffe3 case 202 => 0x3ffffe4 case 203 => 0x7ffffde case 204 => 0x7ffffdf case 205 => 0x3ffffe5
        case 206 => 0xfffff1 case _ => 0x1ffffed)
    else if s < 224 then (match s case 208 => 0x7fff2 case 209 => 0x1fffe3 case 210 => 0x3ffffe6 case 211 => 0x7ffffe0
        case 212 => 0x7ffffe1 case 213 => 0x3ffffe7 case 214 => 0x7ffffe2 case 215 => 0xfffff2 case 216 => 0x1fffe4
        case 217 => 0x1fffe5 case 218 => 0x3ffffe8 case 219 => 0x3ffffe9 case 220 => 0xffffffd case 221 => 0x7ffffe3
        case 222 => 0x7ffffe4 case _ => 0x7ffffe5)
    else if s < 240 then (match s case 224 => 0xfffec case 225 => 0xfffff3 case 226 => 0xfffed case 227 => 0x1fffe6
        case 228 => 0x3fffe9 case 229 => 0x1fffe7 case 230 => 0x1fffe8 case 231 => 0x7ffff3 case 232 => 0x3fffea
        case 233 => 0x3fffeb case 234 => 0x1ffffee case 235 => 0x1ffffef case 236 => 0xfffff4 case 237 => 0xfffff5
        case 238 => 0x3ffffea case _ => 0x7ffff4)
    else (match s case 240 => 0x3ffffeb case 241 => 0x7ffffe6 case 242 => 0x3ffffec case 243 => 0x3ffffed
        case 244 => 0x7ffffe7 case 245 => 0x7ffffe8 case 246 => 0x7ffffe9 case 247 => 0x7ffffea case 248 => 0x7ffffeb
        case 249 => 0xffffffe case 250 => 0x7ffffec case 251 => 0x7ffffed case 252 => 0x7ffffee case 253 => 0x7ffffef
        case 254 => 0x7fffff0 case _ => 0x3ffffee)
  }

  function CodeValue(s: Byte): int { if s < 128 then CodeValueLow(s) else CodeValueHigh(s) }

  /** huffmanCodeLen. The lower half. */
  function CodeLengthLow(s: Byte): int {
    if s < 16 then (match s case 0 => 13 case 1 => 23 case 2 => 28 case 3 => 28 case 4 => 28 case 5 => 28 case 6 => 28
        case 7 => 28 case 8 => 28 case 9 => 24 case 10 => 30 case 11 => 28 case 12 => 28 case 13 => 30 case 14 => 28
        case _ => 28)
    else if s < 32 then (match s case 16 => 28 case 17 => 28 case 18 => 28 case 19 => 28 case 20 => 28 case 21 => 28
        case 22 => 30 case 23 => 28 case 24 => 28 case 25 => 28 case 26 => 28 case 27 => 28 case 28 => 28
        case 29 => 28 case 30 => 28 case _ => 28)
    else if s < 48 then (match s case 32 => 6 case 33 => 10 case 34 => 10 case 35 => 12 case 36 => 13 case 37 => 6
        case 38 => 8 case 39 => 11 case 40 => 10 case 41 => 10 case 42 => 8 case 43 => 11 case 44 => 8 case 45 => 6
        case 46 => 6 case _ => 6)
    else if s < 64 then (match s case 48 => 5 case 49 => 5 case 50 => 5 case 51 => 6 case 52 => 6 case 53 => 6
        case 54 => 6 case 55 => 6 case 56 => 6 case 57 => 6 case 58 => 7 case 59 => 8 case 60 => 15 case 61 => 6
        case 62 => 12 case _ => 10)
    else if s < 80 then (match s case 64 => 13 case 65 => 6 case 66 => 7 case 67 => 7 case 68 => 7 case 69 => 7
        case 70 => 7 case 71 => 7 case 72 => 7 case 73 => 7 case 74 => 7 case 75 => 7 case 76 => 7 case 77 => 7
        case 78 => 7 case _ => 7)
    else if s < 96 then (match s case 80 => 7 case 81 => 7 case 82 => 7 case 83 => 7 case 84 => 7 case 85 => 7
        case 86 => 7 case 87 => 7 case 88 => 8 case 89 => 7 case 90 => 8 case 91 => 13 case 92 => 19 case 93 => 13
        case 94 => 14 case _ => 6)
    else if s < 112 then (match s case 96 => 15 case 97 => 5 case 98 => 6 case 99 => 5 case 100 => 6 case 101 => 5
        case 102 => 6 case 103 => 6 case 104 => 6 case 105 => 5 case 106 => 7 case 107 => 7 case 108 => 6
        case 109 => 6 case 110 => 6 case _ => 5)
    else (match s case 112 => 6 case 113 => 7 case 114 => 6 case 115 => 5 case 116 => 5 case 117 => 6 case 118 => 7
        case 119 => 7 case 120 => 7 case 121 => 7 case 122 => 7 case 123 => 15 case 124 => 11 case 125 => 14
        case 126 => 13 case _ => 28)
  }

  /** huffmanCodeLen. The upper half. */
  function CodeLengthHigh(s: Byte): int {
    if s < 144 then (match s case 128 => 20 case 129 => 22 case 130 => 20 case 131 => 20 case 132 => 22 case 133 => 22
        case 134 => 22 case 135 => 23 case 136 => 22 case 137 => 23 case 138 => 23 case 139 => 23 case 140 => 23
        case 141 => 23 case 142 => 24 case _ => 23)
    else if s < 160 then (match s case 144 => 24 case 145 => 24 case 146 => 22 case 147 => 23 case 148 => 24
        case 149 => 23 case 150 => 23 case 151 => 23 case 152 => 23 case 153 => 21 case 154 => 22 case 155 => 23
        case 156 => 22 case 157 => 23 case 158 => 23 case _ => 24)
    else if s < 176 then (match s case 160 => 22 case 161 => 21 case 162 => 20 case 163 => 22 case 164 => 22
        case 165 => 23 case 166 => 23 case 167 => 21 case 168 => 23 case 169 => 22 case 170 => 22 case 171 => 24
        case 172 => 21 case 173 => 22 case 174 => 23 case _ => 23)
    else if s < 192 then (match s case 176 => 21 case 177 => 21 case 178 => 22 case 179 => 21 case 180 => 23
        case 181 => 22 case 182 => 23 case 183 => 23 case 184 => 20 case 185 => 22 case 186 => 22 case 187 => 22
        case 188 => 23 case 189 => 22 case 190 => 22 case _ => 23)
    else if s < 208 then (match s case 192 => 26 case 193 => 26 case 194 => 20 case 195 => 19 case 196 => 22
        case 197 => 23 case 198 => 22 case 199 => 25 case 200 => 26 case 201 => 26 case 202 => 26 case 203 => 27
        case 204 => 27 case 205 => 26 case 206 => 24 case _ => 25)
    else if s < 224 then (match s case 208 => 19 case 209 => 21 case 210 => 26 case 211 => 27 case 212 => 27
        case 213 => 26 case 214 => 27 case 215 => 24 case 216 => 21 case 217 => 21 case 218 => 26 case 219 => 26
        case 220 => 28 case 221 => 27 case 222 => 27 case _ => 27)
    else if s < 240 then (match s case 224 => 20 case 225 => 24 case 226 => 20 case 227 => 21 case 228 => 22
        case 229 => 21 case 230 => 21 case 231 => 23 case 232 => 22 case 233 => 22 case 234 => 25 case 235 => 25
        case 236 => 24 case 237 => 24 case 238 => 26 case _ => 23)
    else (match s case 240 => 26 case 241 => 27 case 242 => 26 case 243 => 26 case 244 => 27 case 245 => 27
        case 246 => 27 case 247 => 27 case 248 => 27 case 249 => 28 case 250 => 27 case 251 => 27 case 252 => 27
        case 253 => 27 case 254 => 27 case _ => 26)
  }

  function CodeLength(s: Byte): int { if s < 128 then CodeLengthLow(s) else CodeLengthHigh(s) }

  /** The symbols by length of their code word, and by value of it within one length. The lower half. */
  function RankedLow(k: int): int {
    if k < 16 then (match k case 0 => 48 case 1 => 49 case 2 => 50 case 3 => 97 case 4 => 99 case 5 => 101
        case 6 => 105 case 7 => 111 case 8 => 115 case 9 => 116 case 10 => 32 case 11 => 37 case 12 => 45
        case 13 => 46 case 14 => 47 case _ => 51)
    else if k < 32 then (match k case 16 => 52 case 17 => 53 case 18 => 54 case 19 => 55 case 20 => 56 case 21 => 57
        case 22 => 61 case 23 => 65 case 24 => 95 case 25 => 98 case 26 => 100 case 27 => 102 case 28 => 103
        case 29 => 104 case 30 => 108 case _ => 109)
    else if k < 48 then (match k case 32 => 110 case 33 => 112 case 34 => 114 case 35 => 117 case 36 => 58
        case 37 => 66 case 38 => 67 case 39 => 68 case 40 => 69 case 41 => 70 case 42 => 71 case 43 => 72
        case 44 => 73 case 45 => 74 case 46 => 75 case _ => 76)
    else if k < 64 then (match k case 48 => 77 case 49 => 78 case 50 => 79 case 51 => 80 case 52 => 81 case 53 => 82
        case 54 => 83 case 55 => 84 case 56 => 85 case 57 => 86 case 58 => 87 case 59 => 89 case 60 => 106
        case 61 => 107 case 62 => 113 case _ => 118)
    else if k < 80 then (match k case 64 => 119 case 65 => 120 case 66 => 121 case 67 => 122 case 68 => 38
        case 69 => 42 case 70 => 44 case 71 => 59 case 72 => 88 case 73 => 90 case 74 => 33 case 75 => 34
        case 76 => 40 case 77 => 41 case 78 => 63 case _ => 39)
    else if k < 96 then (match k case 80 => 43 case 81 => 124 case 82 => 35 case 83 => 62 case 84 => 0 case 85 => 36
        case 86 => 64 case 87 => 91 case 88 => 93 case 89 => 126 case 90 => 94 case 91 => 125 case 92 => 60
        case 93 => 96 case 94 => 123 case _ => 92)
    else if k < 112 then (match k case 96 => 195 case 97 => 208 case 98 => 128 case 99 => 130 case 100 => 131
        case 101 => 162 case 102 => 184 case 103 => 194 case 104 => 224 case 105 => 226 case 106 => 153
        case 107 => 161 case 108 => 167 case 109 => 172 case 110 => 176 case _ => 177)
    else (match k case 112 => 179 case 113 => 209 case 114 => 216 case 115 => 217 case 116 => 227 case 117 => 229
        case 118 => 230 case 119 => 129 case 120 => 132 case 121 => 133 case 122 => 134 case 123 => 136
        case 124 => 146 case 125 => 154 case 126 => 156 case _ => 160)
  }

  /** The symbols by length of their code word, and by value of it within one length. The upper half. */
  function RankedHigh(k: int): int {
    if k < 144 then (match k case 128 => 163 case 129 => 164 case 130 => 169 case 131 => 170 case 132 => 173
        case 133 => 178 case 134 => 181 case 135 => 185 case 136 => 186 case 137 => 187 case 138 => 189
        case 139 => 190 case 140 => 196 case 141 => 198 case 142 => 228 case _ => 232)
    else if k < 160 then (match k case 144 => 233 case 145 => 1 case 146 => 135 case 147 => 137 case 148 => 138
        case 149 => 139 case 150 => 140 case 151 => 141 case 152 => 143 case 153 => 147 case 154 => 149
        case 155 => 150 case 156 => 151 case 157 => 152 case 158 => 155 case _ => 157)
    else if k < 176 then (match k case 160 => 158 case 161 => 165 case 162 => 166 case 163 => 168 case 164 => 174
        case 165 => 175 case 166 => 180 case 167 => 182 case 168 => 183 case 169 => 188 case 170 => 191
        case 171 => 197 case 172 => 231 case 173 => 239 case 174 => 9 case _ => 142)
    else if k < 192 then (match k case 176 => 144 case 177 => 145 case 178 => 148 case 179 => 159 case 180 => 171
        case 181 => 206 case 182 => 215 case 183 => 225 case 184 => 236 case 185 => 237 case 186 => 199
        case 187 => 207 case 188 => 234 case 189 => 235 case 190 => 192 case _ => 193)
    else if k < 208 then (match k case 192 => 200 case 193 => 201 case 194 => 202 case 195 => 205 case 196 => 210
        case 197 => 213 case 198 => 218 case 199 => 219 case 200 => 238 case 201 => 240 case 202 => 242
        case 203 => 243 case 204 => 255 case 205 => 203 case 206 => 204 case _ => 211)
    else if k < 224 then (match k case 208 => 212 case 209 => 214 case 210 => 221 case 211 => 222 case 212 => 223
        case 213 => 241 case 214 => 244 case 215 => 245 case 216 => 246 case 217 => 247 case 218 => 248
        case 219 => 250 case 220 => 251 case 221 => 252 case 222 => 253 case _ => 254)
    else if k < 240 then (match k case 224 => 2 case 225 => 3 case 226 => 4 case 227 => 5 case 228 => 6 case 229 => 7
        case 230 => 8 case 231 => 11 case 232 => 12 case 233 => 14 case 234 => 15 case 235 => 16 case 236 => 17
        case 237 => 18 case 238 => 19 case _ => 20)
    else (match k case 240 => 21 case 241 => 23 case 242 => 24 case 243 => 25 case 244 => 26 case 245 => 27
        case 246 => 28 case 247 => 29 case 248 => 30 case 249 => 31 case 250 => 127 case 251 => 220 case 252 => 249
        case 253 => 10 case 254 => 13 case _ => 22)
  }

  function Ranked(k: int): int { if k < 128 then RankedLow(k) else RankedHigh(k) }

  /** How many code words have a length. */
  function Count(len: int): nat {
    if len < 16 then (match len case 0 => 0 case 1 => 0 case 2 => 0 case 3 => 0 case 4 => 0 case 5 => 10 case 6 => 26
        case 7 => 32 case 8 => 6 case 9 => 0 case 10 => 5 case 11 => 3 case 12 => 2 case 13 => 6 case 14 => 2
        case _ => 3)
    else (match len case 16 => 0 case 17 => 0 case 18 => 0 case 19 => 3 case 20 => 8 case 21 => 13 case 22 => 26
        case 23 => 29 case 24 => 12 case 25 => 4 case 26 => 15 case 27 => 19 case 28 => 29 case 29 => 0 case 30 => 3
        case _ => 0)
  }

  /** The least code word of a length. */
  function First(len: int): nat {
    if len < 16 then (match len case 0 => 0 case 1 => 0 case 2 => 0 case 3 => 0 case 4 => 0 case 5 => 0 case 6 => 20
        case 7 => 92 case 8 => 248 case 9 => 508 case 10 => 1016 case 11 => 2042 case 12 => 4090 case 13 => 8184
        case 14 => 16380 case _ => 32764)
    else (match len case 16 => 65534 case 17 => 131068 case 18 => 262136 case 19 => 524272 case 20 => 1048550
        case 21 => 2097116 case 22 => 4194258 case 23 => 8388568 case 24 => 16777194 case 25 => 33554412
        case 26 => 67108832 case 27 => 134217694 case 28 => 268435426 case 29 => 536870910 case 30 => 1073741820
        case _ => 2147483646)
  }

  /** How many code words are shorter. */
  function Offset(len: int): nat {
    if len < 16 then (match len case 0 => 0 case 1 => 0 case 2 => 0 case 3 => 0 case 4 => 0 case 5 => 0 case 6 => 10
        case 7 => 36 case 8 => 68 case 9 => 74 case 10 => 74 case 11 => 79 case 12 => 82 case 13 => 84 case 14 => 90
        case _ => 92)
    else (match len case 16 => 95 case 17 => 95 case 18 => 95 case 19 => 95 case 20 => 98 case 21 => 106
        case 22 => 119 case 23 => 145 case 24 => 174 case 25 => 186 case 26 => 190 case 27 => 205 case 28 => 224
        case 29 => 253 case 30 => 253 case _ => 256)
  }

  /** A code word is in the range of its length, and its rank leads back to its symbol. */
  predicate RankOk(s: Byte) {
    var len := CodeLength(s);
    && 5 <= len <= 30
    && First(len) <= CodeValue(s) < First(len) + Count(len)
    && Ranked(Offset(len) + (CodeValue(s) - First(len))) == s
  }

  lemma Ranks0(s: Byte)
    requires 0 <= s < 16
    ensures RankOk(s)
  {
  }

  lemma Ranks1(s: Byte)
    requires 16 <= s < 32
    ensures RankOk(s)
  {
  }

  lemma Ranks2(s: Byte)
    requires 32 <= s < 48
    ensures RankOk(s)
  {
  }

  lemma Ranks3(s: Byte)
    requires 48 <= s < 64
    ensures RankOk(s)
  {
  }

  lemma Ranks4(s: Byte)
    requires 64 <= s < 80
    ensures RankOk(s)
  {
  }

  lemma Ranks5(s: Byte)
    requires 80 <= s < 96
    ensures RankOk(s)
  {
  }

  lemma Ranks6(s: Byte)
    requires 96 <= s < 112
    ensures RankOk(s)
  {
  }

  lemma Ranks7(s: Byte)
    requires 112 <= s < 128
    ensures RankOk(s)
  {
  }

  lemma Ranks8(s: Byte)
    requires 128 <= s < 144
    ensures RankOk(s)
  {
  }

  lemma Ranks9(s: Byte)
    requires 144 <= s < 160
    ensures RankOk(s)
  {
  }

  lemma Ranks10(s: Byte)
    requires 160 <= s < 176
    ensures RankOk(s)
  {
  }

  lemma Ranks11(s: Byte)
    requires 176 <= s < 192
    ensures RankOk(s)
  {
  }

  lemma Ranks12(s: Byte)
    requires 192 <= s < 208
    ensures RankOk(s)
  {
  }

  lemma Ranks13(s: Byte)
    requires 208 <= s < 224
    ensures RankOk(s)
  {
  }

  lemma Ranks14(s: Byte)
    requires 224 <= s < 240
    ensures RankOk(s)
  {
  }

  lemma Ranks15(s: Byte)
    requires 240 <= s < 256
    ensures RankOk(s)
  {
  }

  lemma Ranks(s: Byte)
    ensures RankOk(s)
  {
    hide RankOk;
    if s < 16 { Ranks0(s); }
    else if s < 32 { Ranks1(s); }
    else if s < 48 { Ranks2(s); }
    else if s < 64 { Ranks3(s); }
    else if s < 80 { Ranks4(s); }
    else if s < 96 { Ranks5(s); }
    else if s < 112 { Ranks6(s); }
    else if s < 128 { Ranks7(s); }
    else if s < 144 { Ranks8(s); }
    else if s < 160 { Ranks9(s); }
    else if s < 176 { Ranks10(s); }
    else if s < 192 { Ranks11(s); }
    else if s < 208 { Ranks12(s); }
    else if s < 224 { Ranks13(s); }
    else if s < 240 { Ranks14(s); }
    else { Ranks15(s); }
  }

  /** The ranks at which the words of a new length start. */
  predicate Starts(k: int) {
    k in {0, 10, 36, 68, 74, 79, 82, 84, 90, 92, 95, 98, 106, 119, 145, 174, 186, 190, 205, 224, 253, 256}
  }

  lemma Rises0(k: int)
    requires 0 <= k < 32 && !Starts(k + 1)
    ensures Ranked(k) < Ranked(k + 1)
  {
  }

  lemma Rises1(k: int)
    requires 32 <= k < 64 && !Starts(k + 1)
    ensures Ranked(k) < Ranked(k + 1)
  {
  }

  lemma Rises2(k: int)
    requires 64 <= k < 96 && !Starts(k + 1)
    ensures Ranked(k) < Ranked(k + 1)
  {
  }

  lemma Rises3(k: int)
    requires 96 <= k < 128 && !Starts(k + 1)
    ensures Ranked(k) < Ranked(k + 1)
  {
  }

  lemma Rises4(k: int)
    requires 128 <= k < 160 && !Starts(k + 1)
    ensures Ranked(k) < Ranked(k + 1)
  {
  }

  lemma Rises5(k: int)
    requires 160 <= k < 192 && !Starts(k + 1)
    ensures Ranked(k) < Ranked(k + 1)
  {
  }

  lemma Rises6(k: int)
    requires 192 <= k < 224 && !Starts(k + 1)
    ensures Ranked(k) < Ranked(k + 1)
  {
  }

  lemma Rises7(k: int)
    requires 224 <= k < 255 && !Starts(k + 1)
    ensures Ranked(k) < Ranked(k + 1)
  {
  }

  lemma Rises(k: int)
    requires 0 <= k < 255 && !Starts(k + 1)
    ensures Ranked(k) < Ranked(k + 1)
  {
    hide Ranked, Starts;
    if k < 32 { Rises0(k); }
    else if k < 64 { Rises1(k); }
    else if k < 96 { Rises2(k); }
    else if k < 128 { Rises3(k); }
    else if k < 160 { Rises4(k); }
    else if k < 192 { Rises5(k); }
    else if k < 224 { Rises6(k); }
    else { Rises7(k); }
  }

  lemma NoStart(len: int, k: int)
    requires 5 <= len <= 30 && Offset(len) < k < Offset(len) + Count(len)
    ensures !Starts(k) && k < 256
  {
  }

  lemma {:induction false} RankedRises(len: int, i: int, j: int)
    requires 5 <= len <= 30 && Offset(len) <= i < j < Offset(len) + Count(len)
    ensures Ranked(i) < Ranked(j)
    decreases j
  {
    hide Offset, Count, Ranked, Starts;
    NoStart(len, j);
    if i < j - 1 { RankedRises(len, i, j - 1); }
    Rises(j - 1);
  }

  /** The words of one length are in the order of their symbols. */
  lemma Canonical(a: Byte, b: Byte)
    requires a < b && CodeLength(a) == CodeLength(b)
    ensures CodeValue(a) < CodeValue(b)
  {
    Ranks(a);
    Ranks(b);
    hide First, Count, Offset, Ranked, CodeValue, CodeLength;
    var len := CodeLength(a);
    var i, j := Offset(len) + (CodeValue(a) - First(len)), Offset(len) + (CodeValue(b) - First(len));
    if j < i { RankedRises(len, j, i); }
  }

  /** The first code word of a length follows the last one of the length before. */
  lemma Consecutive(len: nat)
    requires len <= 30
    ensures First(len + 1) == 2 * (First(len) + Count(len))
  {
  }

  function HpackCode(): (t: Table) {
    seq(256, (s: int) requires 0 <= s < 256 => (Ranks(s); Code(CodeValue(s), CodeLength(s))))
  }

  /** Every code word of a longer length is above the limit of a shorter one, shifted. */
  lemma {:induction false} Levels(a: nat, b: nat)
    requires a < b <= 31
    ensures First(b) >= Shl(First(a) + Count(a), b - a)
  {
    hide First, Count;
    Consecutive(b - 1);
    if a + 1 == b {
      assert Shl(First(a) + Count(a), 1) == 2 * Shl(First(a) + Count(a), 0);
    } else {
      Levels(a, b - 1);
      assert Shl(First(a) + Count(a), b - a) == 2 * Shl(First(a) + Count(a), b - 1 - a);
    }
  }

  lemma WordInRange(s: Byte)
    ensures 5 <= CodeLength(s) <= 30
    ensures First(CodeLength(s)) <= CodeValue(s) < First(CodeLength(s)) + Count(CodeLength(s))
    ensures HpackCode()[s] == Code(CodeValue(s), CodeLength(s))
    ensures CodeValue(s) < Pow2(CodeLength(s)) - 1
  {
    Ranks(s);
    hide First, Count, Offset, Ranked, CodeValue, CodeLength;
    LimitFits(CodeLength(s));
  }

  /** No code word is all ones: those bits are left to the end-of-string symbol. */
  lemma LimitFits(len: nat)
    requires 1 <= len <= 30
    ensures First(len) + Count(len) < Pow2(len)
    decreases 30 - len
  {
    if len == 30 {
      Pow2Values();
    } else {
      LimitFits(len + 1);
      Consecutive(len);
    }
  }

  lemma Injective(a: Byte, b: Byte)
    requires CodeLength(a) == CodeLength(b) && CodeValue(a) == CodeValue(b)
    ensures a == b
  {
    Ranks(a);
    Ranks(b);
    hide First, Count, Offset, Ranked, CodeValue, CodeLength;
  }

  lemma ShrShl(v: nat, w: nat, k: nat)
    requires v >= Shl(w, k)
    ensures Shr(v, k) >= w
    decreases k
  {
    if k > 0 { ShrShl(v / 2, w, k - 1); }
  }

  lemma NotPrefix(a: Byte, b: Byte)
    requires CodeBits(HpackCode(), a) <= CodeBits(HpackCode(), b)
    ensures a == b
  {
    hide First, Count, CodeValue, CodeLength;
    WordInRange(a);
    WordInRange(b);
    var la, lb := CodeLength(a), CodeLength(b);
    var va: nat, vb: nat := CodeValue(a), CodeValue(b);
    assert CodeBits(HpackCode(), a) == ToBits(va, la) && CodeBits(HpackCode(), b) == ToBits(vb, lb);
    hide HpackCode, CodeBits, ToBits, Shr;
    assert la <= lb && ToBits(va, la) == ToBits(vb, lb)[..la];
    Split(vb, la, lb - la);
    assert la + (lb - la) == lb;
    assert ToBits(vb, lb)[..la] == ToBits(Shr(vb, lb - la), la);
    if la == lb {
      FromTo(va, la);
      FromTo(vb, lb);
      Injective(a, b);
    } else {
      Levels(la, lb);
      ShrShl(vb, First(la) + Count(la), lb - la);
      ShrBound(vb, la, lb - la);
      FromTo(Shr(vb, lb - la), la);
      FromTo(va, la);
    }
  }

  lemma NotOnes(s: Byte, c: nat)
    ensures CodeBits(HpackCode(), s) != Ones(c)
  {
    hide First, Count, CodeValue, CodeLength;
    WordInRange(s);
    if c == CodeLength(s) {
      OnesValue(c);
      FromTo(CodeValue(s), c);
      FromTo(Pow2(c) - 1, c);
    }
  }

  /** A symbol that starts with, or is a start of, `c` one bits and then zeros. */
  function PadWitness(c: nat): Byte {
    match c case 1 => 61 case 2 => 69 case 3 => 85 case 4 => 119 case 5 => 38 case 6 => 88 case _ => 33
  }

  function PadWord(c: nat): Code {
    match c
    case 1 => Code(0x20, 6) case 2 => Code(0x60, 7) case 3 => Code(0x70, 7) case 4 => Code(0x78, 7)
    case 5 => Code(0xf8, 8) case 6 => Code(0xfc, 8) case _ => Code(0x3f8, 10)
  }

  lemma PadWords(c: nat)
    requires 1 <= c <= 7
    ensures CodeValue(PadWitness(c)) == PadWord(c).bits && CodeLength(PadWitness(c)) == PadWord(c).len
  {
  }

  lemma PadBits(c: nat)
    requires 1 <= c <= 7
    ensures var w := PadWord(c); c < w.len && ToBits(w.bits, w.len) == Ones(c) + Zeros(w.len - c)
  {
    hide PadWord, ToBits, Shl, Pow2;
    PadShifts(c);
    var w := PadWord(c);
    ShiftLeft(Pow2(c) - 1, c, w.len - c);
    assert c + (w.len - c) == w.len;
    OnesValue(c);
  }

  lemma PadShifts(c: nat)
    requires 1 <= c <= 7
    ensures c < PadWord(c).len && PadWord(c).bits == Shl(Pow2(c) - 1, PadWord(c).len - c)
  {
    var v := Pow2(c) - 1;
    assert Pow2(1) == 2 && Pow2(2) == 4 && Pow2(3) == 8 && Pow2(4) == 16;
    assert Pow2(5) == 32 && Pow2(6) == 64 && Pow2(7) == 128;
    assert Shl(v, 1) == 2 * v;
    assert Shl(v, 2) == 4 * v;
    assert Shl(v, 3) == 8 * v;
    assert Shl(v, 4) == 16 * v;
    assert Shl(v, 5) == 32 * v;
  }

  lemma PadCovered(c: nat)
    requires 1 <= c <= 7
    ensures CodeBits(HpackCode(), PadWitness(c)) <= PadOctet(c) || PadOctet(c) <= CodeBits(HpackCode(), PadWitness(c))
  {
    hide First, Count, CodeValue, CodeLength, ToBits, PadOctet;
    WordInRange(PadWitness(c));
    PadWords(c);
    PadBits(c);
    PadComparable(c, PadWord(c).len);
  }

  lemma PadComparable(c: nat, n: nat)
    requires 1 <= c <= 7 && c < n
    ensures Ones(c) + Zeros(n - c) <= PadOctet(c) || PadOctet(c) <= Ones(c) + Zeros(n - c)
  {
    if n <= 8 {
      assert PadOctet(c)[..n] == Ones(c) + Zeros(n - c);
    } else {
      assert (Ones(c) + Zeros(n - c))[..8] == PadOctet(c);
    }
  }

  lemma HpackCodeFormed()
    ensures WellFormed(HpackCode())
  {
    hide HpackCode, CodeValue, CodeLength, First, Count;
    var t := HpackCode();
    forall s: Byte ensures 1 <= t[s].len <= 30 && t[s].bits < Pow2(t[s].len) { WordInRange(s); }
  }

  lemma HpackCodePrefixFree()
    ensures PrefixFree(HpackCode())
  {
    hide HpackCode, CodeBits;
    var t := HpackCode();
    forall a: Byte, b: Byte | CodeBits(t, a) <= CodeBits(t, b) ensures a == b { NotPrefix(a, b); }
  }

  lemma HpackCodePadNever()
    ensures PadNever(HpackCode())
  {
    hide HpackCode, CodeBits, Ones;
    forall c, s: Byte | 0 <= c <= 7 ensures CodeBits(HpackCode(), s) != Ones(c) { NotOnes(s, c); }
  }

  lemma HpackCodePadCovers(c: nat)
    requires 1 <= c <= 7
    ensures PadCovers(HpackCode(), c)
  {
    hide HpackCode, CodeBits, PadOctet, PadWitness;
    PadCovered(c);
  }

  /** The tabulated code is one the coder and the decoder are correct for. */
  lemma HpackCodeGood()
    ensures Good(HpackCode())
  {
    hide HpackCode, WellFormed, PrefixFree, PadNever, PadCovers;
    HpackCodeFormed();
    HpackCodePrefixFree();
    HpackCodePadNever();
    forall c | 1 <= c <= 7 ensures PadCovers(HpackCode(), c) { HpackCodePadCovers(c); }
  }
}
