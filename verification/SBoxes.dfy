/** The substitution tables of liblte_security.cc, and their inverses.

    A table is written as a decision tree on the bits of its index, high bit first, so that the
    leaves appear in the order of the source's array. */
module SBoxes {
  import opened Gf256

  /** Rijndael's S-box, which SNOW 3G uses too. */
  function S(b: bv8): bv8
  {
    if b & 0x80 == 0 then
      if b & 0x40 == 0 then
        if b & 0x20 == 0 then
          if b & 0x10 == 0 then
            if b & 0x08 == 0 then
              if b & 0x04 == 0 then
                if b & 0x02 == 0 then (if b & 0x01 == 0 then 99 else 124) else (if b & 0x01 == 0 then 119 else 123)
              else
                if b & 0x02 == 0 then (if b & 0x01 == 0 then 242 else 107) else (if b & 0x01 == 0 then 111 else 197)
            else
              if b & 0x04 == 0 then
                if b & 0x02 == 0 then (if b & 0x01 == 0 then 48 else 1) else (if b & 0x01 == 0 then 103 else 43)
              else
                if b & 0x02 == 0 then (if b & 0x01 == 0 then 254 else 215) else (if b & 0x01 == 0 then 171 else 118)
          else
            if b & 0x08 == 0 then
              if b & 0x04 == 0 then
                if b & 0x02 == 0 then (if b & 0x01 == 0 then 202 else 130) else (if b & 0x01 == 0 then 201 else 125)
              else
                if b & 0x02 == 0 then (if b & 0x01 == 0 then 250 else 89) else (if b & 0x01 == 0 then 71 else 240)
            else
              if b & 0x04 == 0 then
                if b & 0x02 == 0 then (if b & 0x01 == 0 then 173 else 212) else (if b & 0x01 == 0 then 162 else 175)
              else
                if b & 0x02 == 0 then (if b & 0x01 == 0 then 156 else 164) else (if b & 0x01 == 0 then 114 else 192)
        else
          if b & 0x10 == 0 then
            if b & 0x08 == 0 then
              if b & 0x04 == 0 then
                if b & 0x02 == 0 then (if b & 0x01 == 0 then 183 else 253) else (if b & 0x01 == 0 then 147 else 38)
              else
                if b & 0x02 == 0 then (if b & 0x01 == 0 then 54 else 63) else (if b & 0x01 == 0 then 247 else 204)
            else
              if b & 0x04 == 0 then
                if b & 0x02 == 0 then (if b & 0x01 == 0 then 52 else 165) else (if b & 0x01 == 0 then 229 else 241)
              else
                if b & 0x02 == 0 then (if b & 0x01 == 0 then 113 else 216) else (if b & 0x01 == 0 then 49 else 21)
          else
            if b & 0x08 == 0 then
              if b & 0x04 == 0 then
                if b & 0x02 == 0 then (if b & 0x01 == 0 then 4 else 199) else (if b & 0x01 == 0 then 35 else 195)
              else
                if b & 0x02 == 0 then (if b & 0x01 == 0 then 24 else 150) else (if b & 0x01 == 0 then 5 else 154)
            else
              if b & 0x04 == 0 then
                if b & 0x02 == 0 then (if b & 0x01 == 0 then 7 else 18) else (if b & 0x01 == 0 then 128 else 226)
              else
                if b & 0x02 == 0 then (if b & 0x01 == 0 then 235 else 39) else (if b & 0x01 == 0 then 178 else 117)
      else
        if b & 0x20 == 0 then
          if b & 0x10 == 0 then
            if b & 0x08 == 0 then
              if b & 0x04 == 0 then
                if b & 0x02 == 0 then (if b & 0x01 == 0 then 9 else 131) else (if b & 0x01 == 0 then 44 else 26)
              else
                if b & 0x02 == 0 then (if b & 0x01 == 0 then 27 else 110) else (if b & 0x01 == 0 then 90 else 160)
            else
              if b & 0x04 == 0 then
                if b & 0x02 == 0 then (if b & 0x01 == 0 then 82 else 59) else (if b & 0x01 == 0 then 214 else 179)
              else
                if b & 0x02 == 0 then (if b & 0x01 == 0 then 41 else 227) else (if b & 0x01 == 0 then 47 else 132)
          else
            if b & 0x08 == 0 then
              if b & 0x04 == 0 then
                if b & 0x02 == 0 then (if b & 0x01 == 0 then 83 else 209) else (if b & 0x01 == 0 then 0 else 237)
              else
                if b & 0x02 == 0 then (if b & 0x01 == 0 then 32 else 252) else (if b & 0x01 == 0 then 177 else 91)
            else
              if b & 0x04 == 0 then
                if b & 0x02 == 0 then (if b & 0x01 == 0 then 106 else 203) else (if b & 0x01 == 0 then 190 else 57)
              else
                if b & 0x02 == 0 then (if b & 0x01 == 0 then 74 else 76) else (if b & 0x01 == 0 then 88 else 207)
        else
          if b & 0x10 == 0 then
            if b & 0x08 == 0 then
              if b & 0x04 == 0 then
                if b & 0x02 == 0 then (if b & 0x01 == 0 then 208 else 239) else (if b & 0x01 == 0 then 170 else 251)
              else
                if b & 0x02 == 0 then (if b & 0x01 == 0 then 67 else 77) else (if b & 0x01 == 0 then 51 else 133)
            else
              if b & 0x04 == 0 then
                if b & 0x02 == 0 then (if b & 0x01 == 0 then 69 else 249) else (if b & 0x01 == 0 then 2 else 127)
              else
                if b & 0x02 == 0 then (if b & 0x01 == 0 then 80 else 60) else (if b & 0x01 == 0 then 159 else 168)
          else
            if b & 0x08 == 0 then
              if b & 0x04 == 0 then
                if b & 0x02 == 0 then (if b & 0x01 == 0 then 81 else 163) else (if b & 0x01 == 0 then 64 else 143)
              else
                if b & 0x02 == 0 then (if b & 0x01 == 0 then 146 else 157) else (if b & 0x01 == 0 then 56 else 245)
            else
              if b & 0x04 == 0 then
                if b & 0x02 == 0 then (if b & 0x01 == 0 then 188 else 182) else (if b & 0x01 == 0 then 218 else 33)
              else
                if b & 0x02 == 0 then (if b & 0x01 == 0 then 16 else 255) else (if b & 0x01 == 0 then 243 else 210)
    else
      if b & 0x40 == 0 then
        if b & 0x20 == 0 then
          if b & 0x10 == 0 then
            if b & 0x08 == 0 then
              if b & 0x04 == 0 then
                if b & 0x02 == 0 then (if b & 0x01 == 0 then 205 else 12) else (if b & 0x01 == 0 then 19 else 236)
              else
                if b & 0x02 == 0 then (if b & 0x01 == 0 then 95 else 151) else (if b & 0x01 == 0 then 68 else 23)
            else
              if b & 0x04 == 0 then
                if b & 0x02 == 0 then (if b & 0x01 == 0 then 196 else 167) else (if b & 0x01 == 0 then 126 else 61)
              else
                if b & 0x02 == 0 then (if b & 0x01 == 0 then 100 else 93) else (if b & 0x01 == 0 then 25 else 115)
          else
            if b & 0x08 == 0 then
              if b & 0x04 == 0 then
                if b & 0x02 == 0 then (if b & 0x01 == 0 then 96 else 129) else (if b & 0x01 == 0 then 79 else 220)
              else
                if b & 0x02 == 0 then (if b & 0x01 == 0 then 34 else 42) else (if b & 0x01 == 0 then 144 else 136)
            else
              if b & 0x04 == 0 then
                if b & 0x02 == 0 then (if b & 0x01 == 0 then 70 else 238) else (if b & 0x01 == 0 then 184 else 20)
              else
                if b & 0x02 == 0 then (if b & 0x01 == 0 then 222 else 94) else (if b & 0x01 == 0 then 11 else 219)
        else
          if b & 0x10 == 0 then
            if b & 0x08 == 0 then
              if b & 0x04 == 0 then
                if b & 0x02 == 0 then (if b & 0x01 == 0 then 224 else 50) else (if b & 0x01 == 0 then 58 else 10)
              else
                if b & 0x02 == 0 then (if b & 0x01 == 0 then 73 else 6) else (if b & 0x01 == 0 then 36 else 92)
            else
              if b & 0x04 == 0 then
                if b & 0x02 == 0 then (if b & 0x01 == 0 then 194 else 211) else (if b & 0x01 == 0 then 172 else 98)
              else
                if b & 0x02 == 0 then (if b & 0x01 == 0 then 145 else 149) else (if b & 0x01 == 0 then 228 else 121)
          else
            if b & 0x08 == 0 then
              if b & 0x04 == 0 then
                if b & 0x02 == 0 then (if b & 0x01 == 0 then 231 else 200) else (if b & 0x01 == 0 then 55 else 109)
              else
                if b & 0x02 == 0 then (if b & 0x01 == 0 then 141 else 213) else (if b & 0x01 == 0 then 78 else 169)
            else
              if b & 0x04 == 0 then
                if b & 0x02 == 0 then (if b & 0x01 == 0 then 108 else 86) else (if b & 0x01 == 0 then 244 else 234)
              else
                if b & 0x02 == 0 then (if b & 0x01 == 0 then 101 else 122) else (if b & 0x01 == 0 then 174 else 8)
      else
        if b & 0x20 == 0 then
          if b & 0x10 == 0 then
            if b & 0x08 == 0 then
              if b & 0x04 == 0 then
                if b & 0x02 == 0 then (if b & 0x01 == 0 then 186 else 120) else (if b & 0x01 == 0 then 37 else 46)
              else
                if b & 0x02 == 0 then (if b & 0x01 == 0 then 28 else 166) else (if b & 0x01 == 0 then 180 else 198)
            else
              if b & 0x04 == 0 then
                if b & 0x02 == 0 then (if b & 0x01 == 0 then 232 else 221) else (if b & 0x01 == 0 then 116 else 31)
              else
                if b & 0x02 == 0 then (if b & 0x01 == 0 then 75 else 189) else (if b & 0x01 == 0 then 139 else 138)
          else
            if b & 0x08 == 0 then
              if b & 0x04 == 0 then
                if b & 0x02 == 0 then (if b & 0x01 == 0 then 112 else 62) else (if b & 0x01 == 0 then 181 else 102)
              else
                if b & 0x02 == 0 then (if b & 0x01 == 0 then 72 else 3) else (if b & 0x01 == 0 then 246 else 14)
            else
              if b & 0x04 == 0 then
                if b & 0x02 == 0 then (if b & 0x01 == 0 then 97 else 53) else (if b & 0x01 == 0 then 87 else 185)
              else
                if b & 0x02 == 0 then (if b & 0x01 == 0 then 134 else 193) else (if b & 0x01 == 0 then 29 else 158)
        else
          if b & 0x10 == 0 then
            if b & 0x08 == 0 then
              if b & 0x04 == 0 then
                if b & 0x02 == 0 then (if b & 0x01 == 0 then 225 else 248) else (if b & 0x01 == 0 then 152 else 17)
              else
                if b & 0x02 == 0 then (if b & 0x01 == 0 then 105 else 217) else (if b & 0x01 == 0 then 142 else 148)
            else
              if b & 0x04 == 0 then
                if b & 0x02 == 0 then (if b & 0x01 == 0 then 155 else 30) else (if b & 0x01 == 0 then 135 else 233)
              else
                if b & 0x02 == 0 then (if b & 0x01 == 0 then 206 else 85) else (if b & 0x01 == 0 then 40 else 223)
          else
            if b & 0x08 == 0 then
              if b & 0x04 == 0 then
                if b & 0x02 == 0 then (if b & 0x01 == 0 then 140 else 161) else (if b & 0x01 == 0 then 137 else 13)
              else
                if b & 0x02 == 0 then (if b & 0x01 == 0 then 191 else 230) else (if b & 0x01 == 0 then 66 else 104)
            else
              if b & 0x04 == 0 then
                if b & 0x02 == 0 then (if b & 0x01 == 0 then 65 else 153) else (if b & 0x01 == 0 then 45 else 15)
              else
                if b & 0x02 == 0 then (if b & 0x01 == 0 then 176 else 84) else (if b & 0x01 == 0 then 187 else 22)
  }

  /** The second S-box of SNOW 3G. */
  function SQ(b: bv8): bv8
  {
    if b & 0x80 == 0 then
      if b & 0x40 == 0 then
        if b & 0x20 == 0 then
          if b & 0x10 == 0 then
            if b & 0x08 == 0 then
              if b & 0x04 == 0 then
                if b & 0x02 == 0 then (if b & 0x01 == 0 then 37 else 36) else (if b & 0x01 == 0 then 115 else 103)
              else
                if b & 0x02 == 0 then (if b & 0x01 == 0 then 215 else 174) else (if b & 0x01 == 0 then 92 else 48)
            else
              if b & 0x04 == 0 then
                if b & 0x02 == 0 then (if b & 0x01 == 0 then 164 else 238) else (if b & 0x01 == 0 then 110 else 203)
              else
                if b & 0x02 == 0 then (if b & 0x01 == 0 then 125 else 181) else (if b & 0x01 == 0 then 130 else 219)
          else
            if b & 0x08 == 0 then
              if b & 0x04 == 0 then
                if b & 0x02 == 0 then (if b & 0x01 == 0 then 228 else 142) else (if b & 0x01 == 0 then 72 else 73)
              else
                if b & 0x02 == 0 then (if b & 0x01 == 0 then 79 else 93) else (if b & 0x01 == 0 then 106 else 120)
            else
              if b & 0x04 == 0 then
                if b & 0x02 == 0 then (if b & 0x01 == 0 then 112 else 136) else (if b & 0x01 == 0 then 232 else 95)
              else
                if b & 0x02 == 0 then (if b & 0x01 == 0 then 94 else 132) else (if b & 0x01 == 0 then 101 else 226)
        else
          if b & 0x10 == 0 then
            if b & 0x08 == 0 then
              if b & 0x04 == 0 then
                if b & 0x02 == 0 then (if b & 0x01 == 0 then 216 else 233) else (if b & 0x01 == 0 then 204 else 237)
              else
                if b & 0x02 == 0 then (if b & 0x01 == 0 then 64 else 47) else (if b & 0x01 == 0 then 17 else 40)
            else
              if b & 0x04 == 0 then
                if b & 0x02 == 0 then (if b & 0x01 == 0 then 87 else 210) else (if b & 0x01 == 0 then 172 else 227)
              else
                if b & 0x02 == 0 then (if b & 0x01 == 0 then 74 else 21) else (if b & 0x01 == 0 then 27 else 185)
          else
            if b & 0x08 == 0 then
              if b & 0x04 == 0 then
                if b & 0x02 == 0 then (if b & 0x01 == 0 then 178 else 128) else (if b & 0x01 == 0 then 133 else 166)
              else
                if b & 0x02 == 0 then (if b & 0x01 == 0 then 46 else 2) else (if b & 0x01 == 0 then 71 else 41)
            else
              if b & 0x04 == 0 then
                if b & 0x02 == 0 then (if b & 0x01 == 0 then 7 else 75) else (if b & 0x01 == 0 then 14 else 193)
              else
                if b & 0x02 == 0 then (if b & 0x01 == 0 then 81 else 170) else (if b & 0x01 == 0 then 137 else 212)
      else
        if b & 0x20 == 0 then
          if b & 0x10 == 0 then
            if b & 0x08 == 0 then
              if b & 0x04 == 0 then
                if b & 0x02 == 0 then (if b & 0x01 == 0 then 202 else 1) else (if b & 0x01 == 0 then 70 else 179)
              else
                if b & 0x02 == 0 then (if b & 0x01 == 0 then 239 else 221) else (if b & 0x01 == 0 then 68 else 123)
            else
              if b & 0x04 == 0 then
                if b & 0x02 == 0 then (if b & 0x01 == 0 then 194 else 127) else (if b & 0x01 == 0 then 190 else 195)
              else
                if b & 0x02 == 0 then (if b & 0x01 == 0 then 159 else 32) else (if b & 0x01 == 0 then 76 else 100)
          else
            if b & 0x08 == 0 then
              if b & 0x04 == 0 then
                if b & 0x02 == 0 then (if b & 0x01 == 0 then 131 else 162) else (if b & 0x01 == 0 then 104 else 66)
              else
                if b & 0x02 == 0 then (if b & 0x01 == 0 then 19 else 180) else (if b & 0x01 == 0 then 65 else 205)
            else
              if b & 0x04 == 0 then
                if b & 0x02 == 0 then (if b & 0x01 == 0 then 186 else 198) else (if b & 0x01 == 0 then 187 else 109)
              else
                if b & 0x02 == 0 then (if b & 0x01 == 0 then 77 else 113) else (if b & 0x01 == 0 then 33 else 244)
        else
          if b & 0x10 == 0 then
            if b & 0x08 == 0 then
              if b & 0x04 == 0 then
                if b & 0x02 == 0 then (if b & 0x01 == 0 then 141 else 176) else (if b & 0x01 == 0 then 229 else 147)
              else
                if b & 0x02 == 0 then (if b & 0x01 == 0 then 254 else 143) else (if b & 0x01 == 0 then 230 else 207)
            else
              if b & 0x04 == 0 then
                if b & 0x02 == 0 then (if b & 0x01 == 0 then 67 else 69) else (if b & 0x01 == 0 then 49 else 34)
              else
                if b & 0x02 == 0 then (if b & 0x01 == 0 then 55 else 54) else (if b & 0x01 == 0 then 150 else 250)
          else
            if b & 0x08 == 0 then
              if b & 0x04 == 0 then
                if b & 0x02 == 0 then (if b & 0x01 == 0 then 188 else 15) else (if b & 0x01 == 0 then 8 else 82)
              else
                if b & 0x02 == 0 then (if b & 0x01 == 0 then 29 else 85) else (if b & 0x01 == 0 then 26 else 197)
            else
              if b & 0x04 == 0 then
                if b & 0x02 == 0 then (if b & 0x01 == 0 then 78 else 35) else (if b & 0x01 == 0 then 105 else 122)
              else
                if b & 0x02 == 0 then (if b & 0x01 == 0 then 146 else 255) else (if b & 0x01 == 0 then 91 else 90)
    else
      if b & 0x40 == 0 then
        if b & 0x20 == 0 then
          if b & 0x10 == 0 then
            if b & 0x08 == 0 then
              if b & 0x04 == 0 then
                if b & 0x02 == 0 then (if b & 0x01 == 0 then 235 else 154) else (if b & 0x01 == 0 then 28 else 169)
              else
                if b & 0x02 == 0 then (if b & 0x01 == 0 then 209 else 126) else (if b & 0x01 == 0 then 13 else 252)
            else
              if b & 0x04 == 0 then
                if b & 0x02 == 0 then (if b & 0x01 == 0 then 80 else 138) else (if b & 0x01 == 0 then 182 else 98)
              else
                if b & 0x02 == 0 then (if b & 0x01 == 0 then 245 else 10) else (if b & 0x01 == 0 then 248 else 220)
          else
            if b & 0x08 == 0 then
              if b & 0x04 == 0 then
                if b & 0x02 == 0 then (if b & 0x01 == 0 then 3 else 60) else (if b & 0x01 == 0 then 12 else 57)
              else
                if b & 0x02 == 0 then (if b & 0x01 == 0 then 241 else 184) else (if b & 0x01 == 0 then 243 else 61)
            else
              if b & 0x04 == 0 then
                if b & 0x02 == 0 then (if b & 0x01 == 0 then 242 else 213) else (if b & 0x01 == 0 then 151 else 102)
              else
                if b & 0x02 == 0 then (if b & 0x01 == 0 then 129 else 50) else (if b & 0x01 == 0 then 160 else 0)
        else
          if b & 0x10 == 0 then
            if b & 0x08 == 0 then
              if b & 0x04 == 0 then
                if b & 0x02 == 0 then (if b & 0x01 == 0 then 6 else 206) else (if b & 0x01 == 0 then 246 else 234)
              else
                if b & 0x02 == 0 then (if b & 0x01 == 0 then 183 else 23) else (if b & 0x01 == 0 then 247 else 140)
            else
              if b & 0x04 == 0 then
                if b & 0x02 == 0 then (if b & 0x01 == 0 then 121 else 214) else (if b & 0x01 == 0 then 167 else 191)
              else
                if b & 0x02 == 0 then (if b & 0x01 == 0 then 139 else 63) else (if b & 0x01 == 0 then 31 else 83)
          else
            if b & 0x08 == 0 then
              if b & 0x04 == 0 then
                if b & 0x02 == 0 then (if b & 0x01 == 0 then 99 else 117) else (if b & 0x01 == 0 then 53 else 44)
              else
                if b & 0x02 == 0 then (if b & 0x01 == 0 then 96 else 253) else (if b & 0x01 == 0 then 39 else 211)
            else
              if b & 0x04 == 0 then
                if b & 0x02 == 0 then (if b & 0x01 == 0 then 148 else 165) else (if b & 0x01 == 0 then 124 else 161)
              else
                if b & 0x02 == 0 then (if b & 0x01 == 0 then 5 else 88) else (if b & 0x01 == 0 then 45 else 189)
      else
        if b & 0x20 == 0 then
          if b & 0x10 == 0 then
            if b & 0x08 == 0 then
              if b & 0x04 == 0 then
                if b & 0x02 == 0 then (if b & 0x01 == 0 then 217 else 199) else (if b & 0x01 == 0 then 175 else 107)
              else
                if b & 0x02 == 0 then (if b & 0x01 == 0 then 84 else 11) else (if b & 0x01 == 0 then 224 else 56)
            else
              if b & 0x04 == 0 then
                if b & 0x02 == 0 then (if b & 0x01 == 0 then 4 else 200) else (if b & 0x01 == 0 then 157 else 231)
              else
                if b & 0x02 == 0 then (if b & 0x01 == 0 then 20 else 177) else (if b & 0x01 == 0 then 135 else 156)
          else
            if b & 0x08 == 0 then
              if b & 0x04 == 0 then
                if b & 0x02 == 0 then (if b & 0x01 == 0 then 223 else 111) else (if b & 0x01 == 0 then 249 else 218)
              else
                if b & 0x02 == 0 then (if b & 0x01 == 0 then 42 else 196) else (if b & 0x01 == 0 then 89 else 22)
            else
              if b & 0x04 == 0 then
                if b & 0x02 == 0 then (if b & 0x01 == 0 then 116 else 145) else (if b & 0x01 == 0 then 171 else 38)
              else
                if b & 0x02 == 0 then (if b & 0x01 == 0 then 97 else 118) else (if b & 0x01 == 0 then 52 else 43)
        else
          if b & 0x10 == 0 then
            if b & 0x08 == 0 then
              if b & 0x04 == 0 then
                if b & 0x02 == 0 then (if b & 0x01 == 0 then 173 else 153) else (if b & 0x01 == 0 then 251 else 114)
              else
                if b & 0x02 == 0 then (if b & 0x01 == 0 then 236 else 51) else (if b & 0x01 == 0 then 18 else 222)
            else
              if b & 0x04 == 0 then
                if b & 0x02 == 0 then (if b & 0x01 == 0 then 152 else 59) else (if b & 0x01 == 0 then 192 else 155)
              else
                if b & 0x02 == 0 then (if b & 0x01 == 0 then 62 else 24) else (if b & 0x01 == 0 then 16 else 58)
          else
            if b & 0x08 == 0 then
              if b & 0x04 == 0 then
                if b & 0x02 == 0 then (if b & 0x01 == 0 then 86 else 225) else (if b & 0x01 == 0 then 119 else 201)
              else
                if b & 0x02 == 0 then (if b & 0x01 == 0 then 30 else 158) else (if b & 0x01 == 0 then 149 else 163)
            else
              if b & 0x04 == 0 then
                if b & 0x02 == 0 then (if b & 0x01 == 0 then 144 else 25) else (if b & 0x01 == 0 then 168 else 108)
              else
                if b & 0x02 == 0 then (if b & 0x01 == 0 then 9 else 208) else (if b & 0x01 == 0 then 240 else 134)
  }

  /** The doubling table of the column mixing. */
  function XTime(b: bv8): bv8
  {
    if b & 0x80 == 0 then
      if b & 0x40 == 0 then
        if b & 0x20 == 0 then
          if b & 0x10 == 0 then
            if b & 0x08 == 0 then
              if b & 0x04 == 0 then
                if b & 0x02 == 0 then (if b & 0x01 == 0 then 0 else 2) else (if b & 0x01 == 0 then 4 else 6)
              else
                if b & 0x02 == 0 then (if b & 0x01 == 0 then 8 else 10) else (if b & 0x01 == 0 then 12 else 14)
            else
              if b & 0x04 == 0 then
                if b & 0x02 == 0 then (if b & 0x01 == 0 then 16 else 18) else (if b & 0x01 == 0 then 20 else 22)
              else
                if b & 0x02 == 0 then (if b & 0x01 == 0 then 24 else 26) else (if b & 0x01 == 0 then 28 else 30)
          else
            if b & 0x08 == 0 then
              if b & 0x04 == 0 then
                if b & 0x02 == 0 then (if b & 0x01 == 0 then 32 else 34) else (if b & 0x01 == 0 then 36 else 38)
              else
                if b & 0x02 == 0 then (if b & 0x01 == 0 then 40 else 42) else (if b & 0x01 == 0 then 44 else 46)
            else
              if b & 0x04 == 0 then
                if b & 0x02 == 0 then (if b & 0x01 == 0 then 48 else 50) else (if b & 0x01 == 0 then 52 else 54)
              else
                if b & 0x02 == 0 then (if b & 0x01 == 0 then 56 else 58) else (if b & 0x01 == 0 then 60 else 62)
        else
          if b & 0x10 == 0 then
            if b & 0x08 == 0 then
              if b & 0x04 == 0 then
                if b & 0x02 == 0 then (if b & 0x01 == 0 then 64 else 66) else (if b & 0x01 == 0 then 68 else 70)
              else
                if b & 0x02 == 0 then (if b & 0x01 == 0 then 72 else 74) else (if b & 0x01 == 0 then 76 else 78)
            else
              if b & 0x04 == 0 then
                if b & 0x02 == 0 then (if b & 0x01 == 0 then 80 else 82) else (if b & 0x01 == 0 then 84 else 86)
              else
                if b & 0x02 == 0 then (if b & 0x01 == 0 then 88 else 90) else (if b & 0x01 == 0 then 92 else 94)
          else
            if b & 0x08 == 0 then
              if b & 0x04 == 0 then
                if b & 0x02 == 0 then (if b & 0x01 == 0 then 96 else 98) else (if b & 0x01 == 0 then 100 else 102)
              else
                if b & 0x02 == 0 then (if b & 0x01 == 0 then 104 else 106) else (if b & 0x01 == 0 then 108 else 110)
            else
              if b & 0x04 == 0 then
                if b & 0x02 == 0 then (if b & 0x01 == 0 then 112 else 114) else (if b & 0x01 == 0 then 116 else 118)
              else
                if b & 0x02 == 0 then (if b & 0x01 == 0 then 120 else 122) else (if b & 0x01 == 0 then 124 else 126)
      else
        if b & 0x20 == 0 then
          if b & 0x10 == 0 then
            if b & 0x08 == 0 then
              if b & 0x04 == 0 then
                if b & 0x02 == 0 then (if b & 0x01 == 0 then 128 else 130) else (if b & 0x01 == 0 then 132 else 134)
              else
                if b & 0x02 == 0 then (if b & 0x01 == 0 then 136 else 138) else (if b & 0x01 == 0 then 140 else 142)
            else
              if b & 0x04 == 0 then
                if b & 0x02 == 0 then (if b & 0x01 == 0 then 144 else 146) else (if b & 0x01 == 0 then 148 else 150)
              else
                if b & 0x02 == 0 then (if b & 0x01 == 0 then 152 else 154) else (if b & 0x01 == 0 then 156 else 158)
          else
            if b & 0x08 == 0 then
              if b & 0x04 == 0 then
                if b & 0x02 == 0 then (if b & 0x01 == 0 then 160 else 162) else (if b & 0x01 == 0 then 164 else 166)
              else
                if b & 0x02 == 0 then (if b & 0x01 == 0 then 168 else 170) else (if b & 0x01 == 0 then 172 else 174)
            else
              if b & 0x04 == 0 then
                if b & 0x02 == 0 then (if b & 0x01 == 0 then 176 else 178) else (if b & 0x01 == 0 then 180 else 182)
              else
                if b & 0x02 == 0 then (if b & 0x01 == 0 then 184 else 186) else (if b & 0x01 == 0 then 188 else 190)
        else
          if b & 0x10 == 0 then
            if b & 0x08 == 0 then
              if b & 0x04 == 0 then
                if b & 0x02 == 0 then (if b & 0x01 == 0 then 192 else 194) else (if b & 0x01 == 0 then 196 else 198)
              else
                if b & 0x02 == 0 then (if b & 0x01 == 0 then 200 else 202) else (if b & 0x01 == 0 then 204 else 206)
            else
              if b & 0x04 == 0 then
                if b & 0x02 == 0 then (if b & 0x01 == 0 then 208 else 210) else (if b & 0x01 == 0 then 212 else 214)
              else
                if b & 0x02 == 0 then (if b & 0x01 == 0 then 216 else 218) else (if b & 0x01 == 0 then 220 else 222)
          else
            if b & 0x08 == 0 then
              if b & 0x04 == 0 then
                if b & 0x02 == 0 then (if b & 0x01 == 0 then 224 else 226) else (if b & 0x01 == 0 then 228 else 230)
              else
                if b & 0x02 == 0 then (if b & 0x01 == 0 then 232 else 234) else (if b & 0x01 == 0 then 236 else 238)
            else
              if b & 0x04 == 0 then
                if b & 0x02 == 0 then (if b & 0x01 == 0 then 240 else 242) else (if b & 0x01 == 0 then 244 else 246)
              else
                if b & 0x02 == 0 then (if b & 0x01 == 0 then 248 else 250) else (if b & 0x01 == 0 then 252 else 254)
    else
      if b & 0x40 == 0 then
        if b & 0x20 == 0 then
          if b & 0x10 == 0 then
            if b & 0x08 == 0 then
              if b & 0x04 == 0 then
                if b & 0x02 == 0 then (if b & 0x01 == 0 then 27 else 25) else (if b & 0x01 == 0 then 31 else 29)
              else
                if b & 0x02 == 0 then (if b & 0x01 == 0 then 19 else 17) else (if b & 0x01 == 0 then 23 else 21)
            else
              if b & 0x04 == 0 then
                if b & 0x02 == 0 then (if b & 0x01 == 0 then 11 else 9) else (if b & 0x01 == 0 then 15 else 13)
              else
                if b & 0x02 == 0 then (if b & 0x01 == 0 then 3 else 1) else (if b & 0x01 == 0 then 7 else 5)
          else
            if b & 0x08 == 0 then
              if b & 0x04 == 0 then
                if b & 0x02 == 0 then (if b & 0x01 == 0 then 59 else 57) else (if b & 0x01 == 0 then 63 else 61)
              else
                if b & 0x02 == 0 then (if b & 0x01 == 0 then 51 else 49) else (if b & 0x01 == 0 then 55 else 53)
            else
              if b & 0x04 == 0 then
                if b & 0x02 == 0 then (if b & 0x01 == 0 then 43 else 41) else (if b & 0x01 == 0 then 47 else 45)
              else
                if b & 0x02 == 0 then (if b & 0x01 == 0 then 35 else 33) else (if b & 0x01 == 0 then 39 else 37)
        else
          if b & 0x10 == 0 then
            if b & 0x08 == 0 then
              if b & 0x04 == 0 then
                if b & 0x02 == 0 then (if b & 0x01 == 0 then 91 else 89) else (if b & 0x01 == 0 then 95 else 93)
              else
                if b & 0x02 == 0 then (if b & 0x01 == 0 then 83 else 81) else (if b & 0x01 == 0 then 87 else 85)
            else
              if b & 0x04 == 0 then
                if b & 0x02 == 0 then (if b & 0x01 == 0 then 75 else 73) else (if b & 0x01 == 0 then 79 else 77)
              else
                if b & 0x02 == 0 then (if b & 0x01 == 0 then 67 else 65) else (if b & 0x01 == 0 then 71 else 69)
          else
            if b & 0x08 == 0 then
              if b & 0x04 == 0 then
                if b & 0x02 == 0 then (if b & 0x01 == 0 then 123 else 121) else (if b & 0x01 == 0 then 127 else 125)
              else
                if b & 0x02 == 0 then (if b & 0x01 == 0 then 115 else 113) else (if b & 0x01 == 0 then 119 else 117)
            else
              if b & 0x04 == 0 then
                if b & 0x02 == 0 then (if b & 0x01 == 0 then 107 else 105) else (if b & 0x01 == 0 then 111 else 109)
              else
                if b & 0x02 == 0 then (if b & 0x01 == 0 then 99 else 97) else (if b & 0x01 == 0 then 103 else 101)
      else
        if b & 0x20 == 0 then
          if b & 0x10 == 0 then
            if b & 0x08 == 0 then
              if b & 0x04 == 0 then
                if b & 0x02 == 0 then (if b & 0x01 == 0 then 155 else 153) else (if b & 0x01 == 0 then 159 else 157)
              else
                if b & 0x02 == 0 then (if b & 0x01 == 0 then 147 else 145) else (if b & 0x01 == 0 then 151 else 149)
            else
              if b & 0x04 == 0 then
                if b & 0x02 == 0 then (if b & 0x01 == 0 then 139 else 137) else (if b & 0x01 == 0 then 143 else 141)
              else
                if b & 0x02 == 0 then (if b & 0x01 == 0 then 131 else 129) else (if b & 0x01 == 0 then 135 else 133)
          else
            if b & 0x08 == 0 then
              if b & 0x04 == 0 then
                if b & 0x02 == 0 then (if b & 0x01 == 0 then 187 else 185) else (if b & 0x01 == 0 then 191 else 189)
              else
                if b & 0x02 == 0 then (if b & 0x01 == 0 then 179 else 177) else (if b & 0x01 == 0 then 183 else 181)
            else
              if b & 0x04 == 0 then
                if b & 0x02 == 0 then (if b & 0x01 == 0 then 171 else 169) else (if b & 0x01 == 0 then 175 else 173)
              else
                if b & 0x02 == 0 then (if b & 0x01 == 0 then 163 else 161) else (if b & 0x01 == 0 then 167 else 165)
        else
          if b & 0x10 == 0 then
            if b & 0x08 == 0 then
              if b & 0x04 == 0 then
                if b & 0x02 == 0 then (if b & 0x01 == 0 then 219 else 217) else (if b & 0x01 == 0 then 223 else 221)
              else
                if b & 0x02 == 0 then (if b & 0x01 == 0 then 211 else 209) else (if b & 0x01 == 0 then 215 else 213)
            else
              if b & 0x04 == 0 then
                if b & 0x02 == 0 then (if b & 0x01 == 0 then 203 else 201) else (if b & 0x01 == 0 then 207 else 205)
              else
                if b & 0x02 == 0 then (if b & 0x01 == 0 then 195 else 193) else (if b & 0x01 == 0 then 199 else 197)
          else
            if b & 0x08 == 0 then
              if b & 0x04 == 0 then
                if b & 0x02 == 0 then (if b & 0x01 == 0 then 251 else 249) else (if b & 0x01 == 0 then 255 else 253)
              else
                if b & 0x02 == 0 then (if b & 0x01 == 0 then 243 else 241) else (if b & 0x01 == 0 then 247 else 245)
            else
              if b & 0x04 == 0 then
                if b & 0x02 == 0 then (if b & 0x01 == 0 then 235 else 233) else (if b & 0x01 == 0 then 239 else 237)
              else
                if b & 0x02 == 0 then (if b & 0x01 == 0 then 227 else 225) else (if b & 0x01 == 0 then 231 else 229)
  }

  /** The inverse of S. */
  function SInv(b: bv8): bv8
  {
    if b & 0x80 == 0 then
      if b & 0x40 == 0 then
        if b & 0x20 == 0 then
          if b & 0x10 == 0 then
            if b & 0x08 == 0 then
              if b & 0x04 == 0 then
                if b & 0x02 == 0 then (if b & 0x01 == 0 then 82 else 9) else (if b & 0x01 == 0 then 106 else 213)
              else
                if b & 0x02 == 0 then (if b & 0x01 == 0 then 48 else 54) else (if b & 0x01 == 0 then 165 else 56)
            else
              if b & 0x04 == 0 then
                if b & 0x02 == 0 then (if b & 0x01 == 0 then 191 else 64) else (if b & 0x01 == 0 then 163 else 158)
              else
                if b & 0x02 == 0 then (if b & 0x01 == 0 then 129 else 243) else (if b & 0x01 == 0 then 215 else 251)
          else
            if b & 0x08 == 0 then
              if b & 0x04 == 0 then
                if b & 0x02 == 0 then (if b & 0x01 == 0 then 124 else 227) else (if b & 0x01 == 0 then 57 else 130)
              else
                if b & 0x02 == 0 then (if b & 0x01 == 0 then 155 else 47) else (if b & 0x01 == 0 then 255 else 135)
            else
              if b & 0x04 == 0 then
                if b & 0x02 == 0 then (if b & 0x01 == 0 then 52 else 142) else (if b & 0x01 == 0 then 67 else 68)
              else
                if b & 0x02 == 0 then (if b & 0x01 == 0 then 196 else 222) else (if b & 0x01 == 0 then 233 else 203)
        else
          if b & 0x10 == 0 then
            if b & 0x08 == 0 then
              if b & 0x04 == 0 then
                if b & 0x02 == 0 then (if b & 0x01 == 0 then 84 else 123) else (if b & 0x01 == 0 then 148 else 50)
              else
                if b & 0x02 == 0 then (if b & 0x01 == 0 then 166 else 194) else (if b & 0x01 == 0 then 35 else 61)
            else
              if b & 0x04 == 0 then
                if b & 0x02 == 0 then (if b & 0x01 == 0 then 238 else 76) else (if b & 0x01 == 0 then 149 else 11)
              else
                if b & 0x02 == 0 then (if b & 0x01 == 0 then 66 else 250) else (if b & 0x01 == 0 then 195 else 78)
          else
            if b & 0x08 == 0 then
              if b & 0x04 == 0 then
                if b & 0x02 == 0 then (if b & 0x01 == 0 then 8 else 46) else (if b & 0x01 == 0 then 161 else 102)
              else
                if b & 0x02 == 0 then (if b & 0x01 == 0 then 40 else 217) else (if b & 0x01 == 0 then 36 else 178)
            else
              if b & 0x04 == 0 then
                if b & 0x02 == 0 then (if b & 0x01 == 0 then 118 else 91) else (if b & 0x01 == 0 then 162 else 73)
              else
                if b & 0x02 == 0 then (if b & 0x01 == 0 then 109 else 139) else (if b & 0x01 == 0 then 209 else 37)
      else
        if b & 0x20 == 0 then
          if b & 0x10 == 0 then
            if b & 0x08 == 0 then
              if b & 0x04 == 0 then
                if b & 0x02 == 0 then (if b & 0x01 == 0 then 114 else 248) else (if b & 0x01 == 0 then 246 else 100)
              else
                if b & 0x02 == 0 then (if b & 0x01 == 0 then 134 else 104) else (if b & 0x01 == 0 then 152 else 22)
            else
              if b & 0x04 == 0 then
                if b & 0x02 == 0 then (if b & 0x01 == 0 then 212 else 164) else (if b & 0x01 == 0 then 92 else 204)
              else
                if b & 0x02 == 0 then (if b & 0x01 == 0 then 93 else 101) else (if b & 0x01 == 0 then 182 else 146)
          else
            if b & 0x08 == 0 then
              if b & 0x04 == 0 then
                if b & 0x02 == 0 then (if b & 0x01 == 0 then 108 else 112) else (if b & 0x01 == 0 then 72 else 80)
              else
                if b & 0x02 == 0 then (if b & 0x01 == 0 then 253 else 237) else (if b & 0x01 == 0 then 185 else 218)
            else
              if b & 0x04 == 0 then
                if b & 0x02 == 0 then (if b & 0x01 == 0 then 94 else 21) else (if b & 0x01 == 0 then 70 else 87)
              else
                if b & 0x02 == 0 then (if b & 0x01 == 0 then 167 else 141) else (if b & 0x01 == 0 then 157 else 132)
        else
          if b & 0x10 == 0 then
            if b & 0x08 == 0 then
              if b & 0x04 == 0 then
                if b & 0x02 == 0 then (if b & 0x01 == 0 then 144 else 216) else (if b & 0x01 == 0 then 171 else 0)
              else
                if b & 0x02 == 0 then (if b & 0x01 == 0 then 140 else 188) else (if b & 0x01 == 0 then 211 else 10)
            else
              if b & 0x04 == 0 then
                if b & 0x02 == 0 then (if b & 0x01 == 0 then 247 else 228) else (if b & 0x01 == 0 then 88 else 5)
              else
                if b & 0x02 == 0 then (if b & 0x01 == 0 then 184 else 179) else (if b & 0x01 == 0 then 69 else 6)
          else
            if b & 0x08 == 0 then
              if b & 0x04 == 0 then
                if b & 0x02 == 0 then (if b & 0x01 == 0 then 208 else 44) else (if b & 0x01 == 0 then 30 else 143)
              else
                if b & 0x02 == 0 then (if b & 0x01 == 0 then 202 else 63) else (if b & 0x01 == 0 then 15 else 2)
            else
              if b & 0x04 == 0 then
                if b & 0x02 == 0 then (if b & 0x01 == 0 then 193 else 175) else (if b & 0x01 == 0 then 189 else 3)
              else
                if b & 0x02 == 0 then (if b & 0x01 == 0 then 1 else 19) else (if b & 0x01 == 0 then 138 else 107)
    else
      if b & 0x40 == 0 then
        if b & 0x20 == 0 then
          if b & 0x10 == 0 then
            if b & 0x08 == 0 then
              if b & 0x04 == 0 then
                if b & 0x02 == 0 then (if b & 0x01 == 0 then 58 else 145) else (if b & 0x01 == 0 then 17 else 65)
              else
                if b & 0x02 == 0 then (if b & 0x01 == 0 then 79 else 103) else (if b & 0x01 == 0 then 220 else 234)
            else
              if b & 0x04 == 0 then
                if b & 0x02 == 0 then (if b & 0x01 == 0 then 151 else 242) else (if b & 0x01 == 0 then 207 else 206)
              else
                if b & 0x02 == 0 then (if b & 0x01 == 0 then 240 else 180) else (if b & 0x01 == 0 then 230 else 115)
          else
            if b & 0x08 == 0 then
              if b & 0x04 == 0 then
                if b & 0x02 == 0 then (if b & 0x01 == 0 then 150 else 172) else (if b & 0x01 == 0 then 116 else 34)
              else
                if b & 0x02 == 0 then (if b & 0x01 == 0 then 231 else 173) else (if b & 0x01 == 0 then 53 else 133)
            else
              if b & 0x04 == 0 then
                if b & 0x02 == 0 then (if b & 0x01 == 0 then 226 else 249) else (if b & 0x01 == 0 then 55 else 232)
              else
                if b & 0x02 == 0 then (if b & 0x01 == 0 then 28 else 117) else (if b & 0x01 == 0 then 223 else 110)
        else
          if b & 0x10 == 0 then
            if b & 0x08 == 0 then
              if b & 0x04 == 0 then
                if b & 0x02 == 0 then (if b & 0x01 == 0 then 71 else 241) else (if b & 0x01 == 0 then 26 else 113)
              else
                if b & 0x02 == 0 then (if b & 0x01 == 0 then 29 else 41) else (if b & 0x01 == 0 then 197 else 137)
            else
              if b & 0x04 == 0 then
                if b & 0x02 == 0 then (if b & 0x01 == 0 then 111 else 183) else (if b & 0x01 == 0 then 98 else 14)
              else
                if b & 0x02 == 0 then (if b & 0x01 == 0 then 170 else 24) else (if b & 0x01 == 0 then 190 else 27)
          else
            if b & 0x08 == 0 then
              if b & 0x04 == 0 then
                if b & 0x02 == 0 then (if b & 0x01 == 0 then 252 else 86) else (if b & 0x01 == 0 then 62 else 75)
              else
                if b & 0x02 == 0 then (if b & 0x01 == 0 then 198 else 210) else (if b & 0x01 == 0 then 121 else 32)
            else
              if b & 0x04 == 0 then
                if b & 0x02 == 0 then (if b & 0x01 == 0 then 154 else 219) else (if b & 0x01 == 0 then 192 else 254)
              else
                if b & 0x02 == 0 then (if b & 0x01 == 0 then 120 else 205) else (if b & 0x01 == 0 then 90 else 244)
      else
        if b & 0x20 == 0 then
          if b & 0x10 == 0 then
            if b & 0x08 == 0 then
              if b & 0x04 == 0 then
                if b & 0x02 == 0 then (if b & 0x01 == 0 then 31 else 221) else (if b & 0x01 == 0 then 168 else 51)
              else
                if b & 0x02 == 0 then (if b & 0x01 == 0 then 136 else 7) else (if b & 0x01 == 0 then 199 else 49)
            else
              if b & 0x04 == 0 then
                if b & 0x02 == 0 then (if b & 0x01 == 0 then 177 else 18) else (if b & 0x01 == 0 then 16 else 89)
              else
                if b & 0x02 == 0 then (if b & 0x01 == 0 then 39 else 128) else (if b & 0x01 == 0 then 236 else 95)
          else
            if b & 0x08 == 0 then
              if b & 0x04 == 0 then
                if b & 0x02 == 0 then (if b & 0x01 == 0 then 96 else 81) else (if b & 0x01 == 0 then 127 else 169)
              else
                if b & 0x02 == 0 then (if b & 0x01 == 0 then 25 else 181) else (if b & 0x01 == 0 then 74 else 13)
            else
              if b & 0x04 == 0 then
                if b & 0x02 == 0 then (if b & 0x01 == 0 then 45 else 229) else (if b & 0x01 == 0 then 122 else 159)
              else
                if b & 0x02 == 0 then (if b & 0x01 == 0 then 147 else 201) else (if b & 0x01 == 0 then 156 else 239)
        else
          if b & 0x10 == 0 then
            if b & 0x08 == 0 then
              if b & 0x04 == 0 then
                if b & 0x02 == 0 then (if b & 0x01 == 0 then 160 else 224) else (if b & 0x01 == 0 then 59 else 77)
              else
                if b & 0x02 == 0 then (if b & 0x01 == 0 then 174 else 42) else (if b & 0x01 == 0 then 245 else 176)
            else
              if b & 0x04 == 0 then
                if b & 0x02 == 0 then (if b & 0x01 == 0 then 200 else 235) else (if b & 0x01 == 0 then 187 else 60)
              else
                if b & 0x02 == 0 then (if b & 0x01 == 0 then 131 else 83) else (if b & 0x01 == 0 then 153 else 97)
          else
            if b & 0x08 == 0 then
              if b & 0x04 == 0 then
                if b & 0x02 == 0 then (if b & 0x01 == 0 then 23 else 43) else (if b & 0x01 == 0 then 4 else 126)
              else
                if b & 0x02 == 0 then (if b & 0x01 == 0 then 186 else 119) else (if b & 0x01 == 0 then 214 else 38)
            else
              if b & 0x04 == 0 then
                if b & 0x02 == 0 then (if b & 0x01 == 0 then 225 else 105) else (if b & 0x01 == 0 then 20 else 99)
              else
                if b & 0x02 == 0 then (if b & 0x01 == 0 then 85 else 33) else (if b & 0x01 == 0 then 12 else 125)
  }

  /** The inverse of SQ. */
  function SQInv(b: bv8): bv8
  {
    if b & 0x80 == 0 then
      if b & 0x40 == 0 then
        if b & 0x20 == 0 then
          if b & 0x10 == 0 then
            if b & 0x08 == 0 then
              if b & 0x04 == 0 then
                if b & 0x02 == 0 then (if b & 0x01 == 0 then 159 else 65) else (if b & 0x01 == 0 then 53 else 144)
              else
                if b & 0x02 == 0 then (if b & 0x01 == 0 then 200 else 188) else (if b & 0x01 == 0 then 160 else 56)
            else
              if b & 0x04 == 0 then
                if b & 0x02 == 0 then (if b & 0x01 == 0 then 114 else 252) else (if b & 0x01 == 0 then 141 else 197)
              else
                if b & 0x02 == 0 then (if b & 0x01 == 0 then 146 else 134) else (if b & 0x01 == 0 then 58 else 113)
          else
            if b & 0x08 == 0 then
              if b & 0x04 == 0 then
                if b & 0x02 == 0 then (if b & 0x01 == 0 then 238 else 38) else (if b & 0x01 == 0 then 230 else 84)
              else
                if b & 0x02 == 0 then (if b & 0x01 == 0 then 204 else 45) else (if b & 0x01 == 0 then 215 else 165)
            else
              if b & 0x04 == 0 then
                if b & 0x02 == 0 then (if b & 0x01 == 0 then 237 else 249) else (if b & 0x01 == 0 then 118 else 46)
              else
                if b & 0x02 == 0 then (if b & 0x01 == 0 then 130 else 116) else (if b & 0x01 == 0 then 244 else 174)
        else
          if b & 0x10 == 0 then
            if b & 0x08 == 0 then
              if b & 0x04 == 0 then
                if b & 0x02 == 0 then (if b & 0x01 == 0 then 77 else 94) else (if b & 0x01 == 0 then 107 else 121)
              else
                if b & 0x02 == 0 then (if b & 0x01 == 0 then 1 else 0) else (if b & 0x01 == 0 then 219 else 182)
            else
              if b & 0x04 == 0 then
                if b & 0x02 == 0 then (if b & 0x01 == 0 then 39 else 55) else (if b & 0x01 == 0 then 212 else 223)
              else
                if b & 0x02 == 0 then (if b & 0x01 == 0 then 179 else 190) else (if b & 0x01 == 0 then 52 else 37)
          else
            if b & 0x08 == 0 then
              if b & 0x04 == 0 then
                if b & 0x02 == 0 then (if b & 0x01 == 0 then 7 else 106) else (if b & 0x01 == 0 then 157 else 229)
              else
                if b & 0x02 == 0 then (if b & 0x01 == 0 then 222 else 178) else (if b & 0x01 == 0 then 109 else 108)
            else
              if b & 0x04 == 0 then
                if b & 0x02 == 0 then (if b & 0x01 == 0 then 199 else 147) else (if b & 0x01 == 0 then 239 else 233)
              else
                if b & 0x02 == 0 then (if b & 0x01 == 0 then 145 else 151) else (if b & 0x01 == 0 then 236 else 173)
      else
        if b & 0x20 == 0 then
          if b & 0x10 == 0 then
            if b & 0x08 == 0 then
              if b & 0x04 == 0 then
                if b & 0x02 == 0 then (if b & 0x01 == 0 then 36 else 86) else (if b & 0x01 == 0 then 83 else 104)
              else
                if b & 0x02 == 0 then (if b & 0x01 == 0 then 70 else 105) else (if b & 0x01 == 0 then 66 else 54)
            else
              if b & 0x04 == 0 then
                if b & 0x02 == 0 then (if b & 0x01 == 0 then 18 else 19) else (if b & 0x01 == 0 then 44 else 57)
              else
                if b & 0x02 == 0 then (if b & 0x01 == 0 then 78 else 92) else (if b & 0x01 == 0 then 120 else 20)
          else
            if b & 0x08 == 0 then
              if b & 0x04 == 0 then
                if b & 0x02 == 0 then (if b & 0x01 == 0 then 136 else 60) else (if b & 0x01 == 0 then 115 else 175)
              else
                if b & 0x02 == 0 then (if b & 0x01 == 0 then 196 else 117) else (if b & 0x01 == 0 then 240 else 40)
            else
              if b & 0x04 == 0 then
                if b & 0x02 == 0 then (if b & 0x01 == 0 then 189 else 214) else (if b & 0x01 == 0 then 127 else 126)
              else
                if b & 0x02 == 0 then (if b & 0x01 == 0 then 6 else 21) else (if b & 0x01 == 0 then 28 else 27)
        else
          if b & 0x10 == 0 then
            if b & 0x08 == 0 then
              if b & 0x04 == 0 then
                if b & 0x02 == 0 then (if b & 0x01 == 0 then 180 else 220) else (if b & 0x01 == 0 then 139 else 176)
              else
                if b & 0x02 == 0 then (if b & 0x01 == 0 then 79 else 30) else (if b & 0x01 == 0 then 155 else 3)
            else
              if b & 0x04 == 0 then
                if b & 0x02 == 0 then (if b & 0x01 == 0 then 82 else 122) else (if b & 0x01 == 0 then 22 else 195)
              else
                if b & 0x02 == 0 then (if b & 0x01 == 0 then 251 else 91) else (if b & 0x01 == 0 then 10 else 209)
          else
            if b & 0x08 == 0 then
              if b & 0x04 == 0 then
                if b & 0x02 == 0 then (if b & 0x01 == 0 then 24 else 93) else (if b & 0x01 == 0 then 227 else 2)
              else
                if b & 0x02 == 0 then (if b & 0x01 == 0 then 216 else 177) else (if b & 0x01 == 0 then 221 else 242)
            else
              if b & 0x04 == 0 then
                if b & 0x02 == 0 then (if b & 0x01 == 0 then 23 else 168) else (if b & 0x01 == 0 then 123 else 71)
              else
                if b & 0x02 == 0 then (if b & 0x01 == 0 then 186 else 12) else (if b & 0x01 == 0 then 133 else 73)
    else
      if b & 0x40 == 0 then
        if b & 0x20 == 0 then
          if b & 0x10 == 0 then
            if b & 0x08 == 0 then
              if b & 0x04 == 0 then
                if b & 0x02 == 0 then (if b & 0x01 == 0 then 49 else 156) else (if b & 0x01 == 0 then 14 else 80)
              else
                if b & 0x02 == 0 then (if b & 0x01 == 0 then 29 else 50) else (if b & 0x01 == 0 then 255 else 206)
            else
              if b & 0x04 == 0 then
                if b & 0x02 == 0 then (if b & 0x01 == 0 then 25 else 62) else (if b & 0x01 == 0 then 137 else 172)
              else
                if b & 0x02 == 0 then (if b & 0x01 == 0 then 167 else 96) else (if b & 0x01 == 0 then 17 else 101)
          else
            if b & 0x08 == 0 then
              if b & 0x04 == 0 then
                if b & 0x02 == 0 then (if b & 0x01 == 0 then 248 else 217) else (if b & 0x01 == 0 then 124 else 99)
              else
                if b & 0x02 == 0 then (if b & 0x01 == 0 then 184 else 246) else (if b & 0x01 == 0 then 110 else 154)
            else
              if b & 0x04 == 0 then
                if b & 0x02 == 0 then (if b & 0x01 == 0 then 232 else 225) else (if b & 0x01 == 0 then 129 else 235)
              else
                if b & 0x02 == 0 then (if b & 0x01 == 0 then 207 else 202) else (if b & 0x01 == 0 then 245 else 76)
        else
          if b & 0x10 == 0 then
            if b & 0x08 == 0 then
              if b & 0x04 == 0 then
                if b & 0x02 == 0 then (if b & 0x01 == 0 then 158 else 187) else (if b & 0x01 == 0 then 81 else 247)
              else
                if b & 0x02 == 0 then (if b & 0x01 == 0 then 8 else 185) else (if b & 0x01 == 0 then 51 else 170)
            else
              if b & 0x04 == 0 then
                if b & 0x02 == 0 then (if b & 0x01 == 0 then 250 else 131) else (if b & 0x01 == 0 then 61 else 218)
              else
                if b & 0x02 == 0 then (if b & 0x01 == 0 then 42 else 224) else (if b & 0x01 == 0 then 5 else 194)
          else
            if b & 0x08 == 0 then
              if b & 0x04 == 0 then
                if b & 0x02 == 0 then (if b & 0x01 == 0 then 97 else 205) else (if b & 0x01 == 0 then 48 else 67)
              else
                if b & 0x02 == 0 then (if b & 0x01 == 0 then 85 else 13) else (if b & 0x01 == 0 then 138 else 164)
            else
              if b & 0x04 == 0 then
                if b & 0x02 == 0 then (if b & 0x01 == 0 then 149 else 47) else (if b & 0x01 == 0 then 88 else 90)
              else
                if b & 0x02 == 0 then (if b & 0x01 == 0 then 112 else 191) else (if b & 0x01 == 0 then 74 else 171)
      else
        if b & 0x20 == 0 then
          if b & 0x10 == 0 then
            if b & 0x08 == 0 then
              if b & 0x04 == 0 then
                if b & 0x02 == 0 then (if b & 0x01 == 0 then 234 else 59) else (if b & 0x01 == 0 then 72 else 75)
              else
                if b & 0x02 == 0 then (if b & 0x01 == 0 then 213 else 119) else (if b & 0x01 == 0 then 89 else 193)
            else
              if b & 0x04 == 0 then
                if b & 0x02 == 0 then (if b & 0x01 == 0 then 201 else 243) else (if b & 0x01 == 0 then 64 else 11)
              else
                if b & 0x02 == 0 then (if b & 0x01 == 0 then 34 else 87) else (if b & 0x01 == 0 then 161 else 103)
          else
            if b & 0x08 == 0 then
              if b & 0x04 == 0 then
                if b & 0x02 == 0 then (if b & 0x01 == 0 then 253 else 132) else (if b & 0x01 == 0 then 41 else 183)
              else
                if b & 0x02 == 0 then (if b & 0x01 == 0 then 63 else 153) else (if b & 0x01 == 0 then 169 else 4)
            else
              if b & 0x04 == 0 then
                if b & 0x02 == 0 then (if b & 0x01 == 0 then 32 else 192) else (if b & 0x01 == 0 then 211 else 15)
              else
                if b & 0x02 == 0 then (if b & 0x01 == 0 then 143 else 69) else (if b & 0x01 == 0 then 231 else 208)
        else
          if b & 0x10 == 0 then
            if b & 0x08 == 0 then
              if b & 0x04 == 0 then
                if b & 0x02 == 0 then (if b & 0x01 == 0 then 198 else 241) else (if b & 0x01 == 0 then 31 else 43)
              else
                if b & 0x02 == 0 then (if b & 0x01 == 0 then 16 else 98) else (if b & 0x01 == 0 then 102 else 203)
            else
              if b & 0x04 == 0 then
                if b & 0x02 == 0 then (if b & 0x01 == 0 then 26 else 33) else (if b & 0x01 == 0 then 163 else 128)
              else
                if b & 0x02 == 0 then (if b & 0x01 == 0 then 228 else 35) else (if b & 0x01 == 0 then 9 else 68)
          else
            if b & 0x08 == 0 then
              if b & 0x04 == 0 then
                if b & 0x02 == 0 then (if b & 0x01 == 0 then 254 else 148) else (if b & 0x01 == 0 then 152 else 150)
              else
                if b & 0x02 == 0 then (if b & 0x01 == 0 then 95 else 140) else (if b & 0x01 == 0 then 162 else 166)
            else
              if b & 0x04 == 0 then
                if b & 0x02 == 0 then (if b & 0x01 == 0 then 142 else 210) else (if b & 0x01 == 0 then 111 else 226)
              else
                if b & 0x02 == 0 then (if b & 0x01 == 0 then 135 else 181) else (if b & 0x01 == 0 then 100 else 125)
  }

  /** S is a bijection on bytes. */
  lemma SBijective(b: bv8)
    ensures SInv(S(b)) == b && S(SInv(b)) == b
  {
  }

  /** SQ is a bijection on bytes. */
  lemma SQBijective(b: bv8)
    ensures SQInv(SQ(b)) == b && SQ(SQInv(b)) == b
  {
  }

  /** The table multiplies by x in the field of Rijndael. */
  lemma XTimeIsMulX(b: bv8)
    ensures XTime(b) == MulX(b, 0x1B)
  {
  }

  // ---- What the table S holds

  /** The product of two bytes in the field of the constant c. */
  function Product(a: bv8, b: bv8, c: bv8): bv8
  {
    var a1 := MulX(a, c);
    var a2 := MulX(a1, c);
    var a3 := MulX(a2, c);
    var a4 := MulX(a3, c);
    var a5 := MulX(a4, c);
    var a6 := MulX(a5, c);
    var a7 := MulX(a6, c);
    Lin(b, a, a1, a2, a3, a4, a5, a6, a7)
  }

  /** The affine map of section 5.1.1 of FIPS 197. */
  function Affine(y: bv8): bv8
  {
    y ^ ((y << 1) | (y >> 7)) ^ ((y << 2) | (y >> 6)) ^ ((y << 3) | (y >> 5)) ^ ((y << 4) | (y >> 4)) ^ 0x63
  }

  function Unaffine(s: bv8): bv8
  {
    ((s << 1) | (s >> 7)) ^ ((s << 3) | (s >> 5)) ^ ((s << 6) | (s >> 2)) ^ 0x05
  }

  lemma SWitness(x: bv8)
    ensures S(x) == Affine(Unaffine(S(x)))
    ensures Product(x, Unaffine(S(x)), 0x1B) == (if x == 0 then 0 else 1)
    ensures x == 0 ==> Unaffine(S(x)) == 0
  {
  }

  /** Every entry of S is the affine map of the inverse of its index in the field, and of zero at zero. */
  lemma SIsAffineInverse(x: bv8)
    ensures exists y ::
      S(x) == Affine(y) && Product(x, y, 0x1B) == (if x == 0 then 0 else 1) && (x == 0 ==> y == 0)
  {
    SWitness(x);
  }
}
